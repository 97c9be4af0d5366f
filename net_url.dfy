// Go's net/url.Parse, as api-gateway/main.go:16 calls it on each target URL:
// which texts parse, and the Host a parsed target carries.  The steps follow
// url.Parse: cut off the fragment, refuse control bytes, split off the scheme
// (getScheme), cut off the query, then read `//authority` (parseAuthority and
// parseHost) or keep the rest as an opaque part or a path.

module NetUrl {
  import opened Base
  import opened Text

  /** The parts of a parsed URL the gateway reads; the path is kept as written. */
  datatype Url = Url(scheme: string, host: string, path: string)

  function IndexOf(s: string, c: char): (i: nat)
    ensures i <= |s|
    ensures forall j :: 0 <= j < i ==> s[j] != c
    ensures i < |s| ==> s[i] == c
  {
    if s == [] then 0 else if s[0] == c then 0 else 1 + IndexOf(s[1..], c)
  }

  /** strings.LastIndex for one character: -1 when it does not occur. */
  function LastIndexOf(s: string, c: char): (i: int)
    ensures -1 <= i < |s|
    ensures i >= 0 ==> s[i] == c
    ensures forall j :: i < j < |s| ==> s[j] != c
  {
    if s == [] then -1 else if s[|s| - 1] == c then |s| - 1 else LastIndexOf(s[..|s| - 1], c)
  }

  predicate IsLetter(c: char)
  {
    'a' <= c <= 'z' || 'A' <= c <= 'Z'
  }

  predicate IsHex(c: char)
  {
    IsDigit(c) || 'a' <= c <= 'f' || 'A' <= c <= 'F'
  }

  function HexValue(c: char): (v: nat)
    requires IsHex(c)
    ensures v < 16
  {
    if IsDigit(c) then DigitValue(c)
    else if 'a' <= c <= 'f' then c as int - 'a' as int + 10
    else c as int - 'A' as int + 10
  }

  /** stringContainsCTLByte: a byte below 0x20, or DEL. */
  predicate HasControl(s: string)
  {
    exists i :: 0 <= i < |s| && (s[i] < ' ' || s[i] as int == 0x7f)
  }

  // ----- getScheme -----

  /** A scheme starts with a letter and continues with letters, digits, '+', '-' or '.'. */
  predicate SchemeChar(c: char, pos: nat)
  {
    IsLetter(c) || (pos > 0 && (IsDigit(c) || c == '+' || c == '-' || c == '.'))
  }

  predicate ValidScheme(name: string)
  {
    |name| > 0 && forall k :: 0 <= k < |name| ==> SchemeChar(name[k], k)
  }

  /** The first position from i on whose character cannot continue a scheme. */
  function SchemeEnd(s: string, i: nat): (j: nat)
    requires i <= |s|
    ensures i <= j <= |s|
    ensures forall k :: i <= k < j ==> SchemeChar(s[k], k)
    ensures j < |s| ==> !SchemeChar(s[j], j)
    decreases |s| - i
  {
    if i == |s| || !SchemeChar(s[i], i) then i else SchemeEnd(s, i + 1)
  }

  datatype SchemeSplit = NoScheme | HasScheme(name: string, rest: string) | MissingScheme

  /**
   * The scheme is the text before the first character that cannot belong to
   * one, when that character is ':'; a leading ':' is the "missing protocol
   * scheme" error, anything else means there is no scheme.
   */
  function GetScheme(s: string): (r: SchemeSplit)
    ensures r.HasScheme? ==> ValidScheme(r.name) && s == r.name + ":" + r.rest
    ensures r.MissingScheme? <==> |s| > 0 && s[0] == ':'
    ensures r.NoScheme? ==> forall k :: 0 <= k < |s| && s[k] == ':' ==> exists j :: 0 <= j < k && !SchemeChar(s[j], j)
  {
    var j := SchemeEnd(s, 0);
    if j < |s| && s[j] == ':' then
      if j == 0 then MissingScheme
      else
        assert s == s[..j] + ":" + s[j + 1..];
        HasScheme(s[..j], s[j + 1..])
    else
      NoScheme
  }

  lemma SchemeSplitsAtColon(scheme: string, rest: string)
    requires ValidScheme(scheme)
    ensures GetScheme(scheme + ":" + rest) == HasScheme(scheme, rest)
  {
    var s := scheme + ":" + rest;
    assert !SchemeChar(s[|scheme|], |scheme|);
    SchemeEndIs(s, 0, |scheme|);
    assert s[..|scheme|] == scheme && s[|scheme| + 1..] == rest;
  }

  lemma {:induction false} SchemeEndIs(s: string, i: nat, j: nat)
    requires i <= j < |s|
    requires forall k :: i <= k < j ==> SchemeChar(s[k], k)
    requires !SchemeChar(s[j], j)
    ensures SchemeEnd(s, i) == j
    decreases j - i
  {
    if i < j {
      SchemeEndIs(s, i + 1, j);
    }
  }

  // ----- unescape -----

  /** unescape's check outside the host: every '%' starts two hex digits. */
  predicate EscapesValid(s: string)
    decreases |s|
  {
    if s == [] then true
    else if s[0] == '%' then |s| >= 3 && IsHex(s[1]) && IsHex(s[2]) && EscapesValid(s[3..])
    else EscapesValid(s[1..])
  }

  /** The ASCII characters shouldEscape leaves alone in a host. */
  predicate HostChar(c: char)
  {
    || IsLetter(c) || IsDigit(c)
    || c == '-' || c == '_' || c == '.' || c == '~' || c == '!' || c == '$' || c == '&' || c == '\''
    || c == '(' || c == ')' || c == '*' || c == '+' || c == ',' || c == ';' || c == '=' || c == ':'
    || c == '[' || c == ']' || c == '<' || c == '>' || c == '"'
  }

  /** What a decoded host may hold: host characters, '%' (from "%25") and non-ASCII characters. */
  predicate HostText(h: string)
  {
    forall i :: 0 <= i < |h| ==> HostChar(h[i]) || h[i] == '%' || h[i] as int >= 0x80
  }

  /**
   * unescape in host mode: an ASCII character must be a host character, and
   * an escape must be "%25" or encode a byte from 0x80 on.
   */
  function UnescapeHost(h: string): (r: Option<string>)
    ensures r.Some? ==> HostText(r.value)
    decreases |h|
  {
    if h == [] then Some([])
    else if h[0] == '%' then
      if |h| < 3 || !IsHex(h[1]) || !IsHex(h[2]) then None
      else if h[..3] != "%25" && HexValue(h[1]) < 8 then None
      else
        var tail := UnescapeHost(h[3..]);
        if tail.None? then None else Some([(16 * HexValue(h[1]) + HexValue(h[2])) as char] + tail.value)
    else if h[0] as int < 0x80 && !HostChar(h[0]) then None
    else
      var tail := UnescapeHost(h[1..]);
      if tail.None? then None else Some([h[0]] + tail.value)
  }

  /** A host of host characters without escapes decodes to itself. */
  lemma {:induction false} UnescapePlain(h: string)
    requires forall i :: 0 <= i < |h| ==> HostChar(h[i])
    ensures UnescapeHost(h) == Some(h)
    decreases |h|
  {
    if h != [] {
      UnescapePlain(h[1..]);
      assert [h[0]] + h[1..] == h;
    }
  }

  // ----- parseAuthority and parseHost -----

  /** parseHost without brackets: text after the last ':' is the port and must be all digits. */
  function ParseHost(h: string): (r: Option<string>)
    ensures r.Some? ==> HostText(r.value)
  {
    if |h| > 0 && h[0] == '[' then None
    else
      var i := LastIndexOf(h, ':');
      if i >= 0 && !AllDigits(h[i + 1..]) then None
      else UnescapeHost(h)
  }

  /** validUserinfo. */
  predicate UserinfoChar(c: char)
  {
    || IsLetter(c) || IsDigit(c)
    || c == '-' || c == '.' || c == '_' || c == ':' || c == '~' || c == '!' || c == '$' || c == '&' || c == '\''
    || c == '(' || c == ')' || c == '*' || c == '+' || c == ',' || c == ';' || c == '=' || c == '%' || c == '@'
  }

  /** The host follows the last '@'; what precedes it is userinfo, which is checked and then dropped. */
  function ParseAuthority(a: string): (r: Option<string>)
    ensures r.Some? ==> HostText(r.value)
  {
    var at := LastIndexOf(a, '@');
    var host := ParseHost(a[at + 1..]);
    if host.None? then None
    else if at >= 0 && (!(forall k :: 0 <= k < at ==> UserinfoChar(a[k])) || !EscapesValid(a[..at])) then None
    else host
  }

  // ----- parse -----

  /** Everything after the scheme: the query is cut off, then comes `//authority`, an opaque part or a path. */
  function ParseRest(scheme: string, r: string): (u: Option<Url>)
    ensures u.Some? ==> u.value.scheme == scheme && HostText(u.value.host)
  {
    var rest := r[..IndexOf(r, '?')];
    if rest == [] || rest[0] != '/' then
      if scheme != [] then Some(Url(scheme, "", ""))
      else if ':' in rest[..IndexOf(rest, '/')] then None
      else if EscapesValid(rest) then Some(Url("", "", rest))
      else None
    else if (scheme != [] || !(|rest| >= 3 && rest[..3] == "///")) && |rest| >= 2 && rest[..2] == "//" then
      var a := rest[2..];
      var slash := IndexOf(a, '/');
      var host := ParseAuthority(a[..slash]);
      if host.None? || !EscapesValid(a[slash..]) then None
      else Some(Url(scheme, host.value, a[slash..]))
    else if EscapesValid(rest) then Some(Url(scheme, "", rest))
    else None
  }

  /** parse(rawURL, false): the text without its fragment. */
  function ParseReference(u: string): (r: Option<Url>)
    ensures r.Some? ==> HostText(r.value.host)
  {
    if HasControl(u) then None
    else if u == "*" then Some(Url("", "", "*"))
    else
      match GetScheme(u)
      case MissingScheme => None
      case NoScheme => ParseRest("", u)
      case HasScheme(name, rest) => ParseRest(ToLower(name), rest)
  }

  /** url.Parse: the fragment after the first '#' must hold valid escapes; the text before it is parsed. */
  function Parse(s: string): (r: Option<Url>)
    ensures r.Some? ==> HostText(r.value.host)
  {
    var f := IndexOf(s, '#');
    var u := ParseReference(s[..f]);
    if u.None? || (f < |s| && !EscapesValid(s[f + 1..])) then None else u
  }

  // ----- what Parse gives for the targets a deployment writes -----

  predicate NotDelimiter(c: char)
  {
    c != '/' && c != '?' && c != '#' && c != '@'
  }

  predicate Avoids(s: string, c: char)
  {
    forall i :: 0 <= i < |s| ==> s[i] != c
  }

  /** No control byte, the opposite of HasControl. */
  predicate Clean(s: string)
  {
    forall i :: 0 <= i < |s| ==> ' ' <= s[i] && s[i] as int != 0x7f
  }

  lemma Concat(a: string, b: string, c: char)
    ensures Avoids(a, c) && Avoids(b, c) ==> Avoids(a + b, c)
    ensures Clean(a) && Clean(b) ==> Clean(a + b)
  {
    assert forall i :: |a| <= i < |a + b| ==> (a + b)[i] == b[i - |a|];
  }

  lemma IndexAbsent(s: string, c: char)
    requires Avoids(s, c)
    ensures IndexOf(s, c) == |s| && s[..IndexOf(s, c)] == s
  {
  }

  lemma IndexAfter(a: string, b: string, c: char)
    requires Avoids(a, c) && |b| > 0 && b[0] == c
    ensures IndexOf(a + b, c) == |a|
  {
    assert (a + b)[|a|] == c;
    assert forall j :: 0 <= j < |a| ==> (a + b)[j] == a[j];
  }

  lemma {:induction false} LastIndexAfter(a: string, b: string, c: char)
    requires Avoids(b, c)
    ensures LastIndexOf(a + [c] + b, c) == |a|
    decreases |b|
  {
    var s := a + [c] + b;
    if b == [] {
      assert s[|s| - 1] == c;
    } else {
      var b' := b[..|b| - 1];
      assert s[|s| - 1] == b[|b| - 1];
      assert s[..|s| - 1] == a + [c] + b';
      LastIndexAfter(a, b', c);
    }
  }

  lemma SchemeFacts(scheme: string)
    requires ValidScheme(scheme)
    ensures Clean(scheme) && Avoids(scheme, '#') && Avoids(scheme, '?') && Avoids(scheme, '/') && ToLower(scheme) != []
  {
    assert forall i :: 0 <= i < |scheme| ==> SchemeChar(scheme[i], i);
  }

  lemma HostFacts(host: string)
    requires forall i :: 0 <= i < |host| ==> HostChar(host[i])
    ensures Clean(host) && Avoids(host, '/') && Avoids(host, '?') && Avoids(host, '#') && Avoids(host, '@')
  {
  }

  lemma UserFacts(user: string)
    requires forall i :: 0 <= i < |user| ==> UserinfoChar(user[i])
    ensures Clean(user) && Avoids(user, '/') && Avoids(user, '?') && Avoids(user, '#')
  {
  }

  /** `host[:port]` in plain host characters, not bracketed, with an all-digit port when there is one. */
  predicate PlainHost(h: string)
  {
    && (forall i :: 0 <= i < |h| ==> HostChar(h[i]))
    && (h == [] || h[0] != '[')
    && (LastIndexOf(h, ':') < 0 || AllDigits(h[LastIndexOf(h, ':') + 1..]))
  }

  /** A path that survives the query and fragment cuts and has valid escapes. */
  predicate PlainPath(p: string)
  {
    (p == [] || p[0] == '/') && Avoids(p, '?') && Avoids(p, '#') && Clean(p) && EscapesValid(p)
  }

  predicate PlainUser(user: string)
  {
    (forall i :: 0 <= i < |user| ==> UserinfoChar(user[i])) && EscapesValid(user)
  }

  lemma HostParses(host: string)
    requires PlainHost(host)
    ensures ParseHost(host) == Some(host)
  {
    UnescapePlain(host);
  }

  /** The authority part: a plain host parses to itself, and valid userinfo before it is dropped. */
  lemma AuthorityIsHost(user: string, host: string)
    requires PlainHost(host) && PlainUser(user)
    ensures ParseAuthority(host) == Some(host)
    ensures ParseAuthority(user + "@" + host) == Some(host)
  {
    HostFacts(host);
    HostParses(host);
    assert LastIndexOf(host, '@') == -1;
    assert host[0..] == host;
    var a := user + "@" + host;
    assert a == user + ['@'] + host;
    LastIndexAfter(user, host, '@');
    assert a[|user| + 1..] == host && a[..|user|] == user;
  }

  /** After the scheme: `//authority` followed by a path, with nothing after it. */
  lemma RestIsAuthority(scheme: string, authority: string, path: string)
    requires scheme != [] && Avoids(authority, '/') && Avoids(authority, '?') && PlainPath(path)
    ensures var host := ParseAuthority(authority);
      ParseRest(scheme, "//" + authority + path) == if host.None? then None else Some(Url(scheme, host.value, path))
  {
    var r := "//" + authority + path;
    Concat("//", authority, '?');
    Concat("//" + authority, path, '?');
    IndexAbsent(r, '?');
    assert r[..2] == "//";
    var a := authority + path;
    assert r[2..] == a;
    if path == [] {
      assert a == authority;
      IndexAbsent(a, '/');
    } else {
      IndexAfter(authority, path, '/');
    }
    assert a[..IndexOf(a, '/')] == authority && a[IndexOf(a, '/')..] == path;
  }

  lemma ReferenceWithScheme(scheme: string, r: string)
    requires ValidScheme(scheme) && Clean(scheme + ":" + r)
    ensures ParseReference(scheme + ":" + r) == ParseRest(ToLower(scheme), r)
  {
    SchemeSplitsAtColon(scheme, r);
    var s := scheme + ":" + r;
    assert s != "*" by { assert s[|scheme|] == ':'; }
    assert !HasControl(s);
  }

  lemma ParseWithoutFragment(t: string)
    requires Avoids(t, '#')
    ensures Parse(t) == ParseReference(t)
  {
    IndexAbsent(t, '#');
  }

  lemma ParseWithFragment(t: string, fragment: string)
    requires Avoids(t, '#') && EscapesValid(fragment)
    ensures Parse(t + "#" + fragment) == ParseReference(t)
  {
    var s := t + "#" + fragment;
    IndexAfter(t, "#" + fragment, '#');
    assert t + ("#" + fragment) == s;
    assert s[..|t|] == t && s[|t| + 1..] == fragment;
  }

  /** `scheme://authority` followed by a plain path, as the characters of its parts allow. */
  lemma {:induction false} AuthorityForm(scheme: string, authority: string, path: string)
    requires ValidScheme(scheme) && PlainPath(path)
    requires Clean(authority) && Avoids(authority, '/') && Avoids(authority, '?') && Avoids(authority, '#')
    ensures var s := scheme + "://" + authority + path;
      && Avoids(s, '#')
      && Parse(s) == ParseRest(ToLower(scheme), "//" + authority + path)
  {
    SchemeFacts(scheme);
    var r := "//" + authority + path;
    Concat("//", authority, '#');
    Concat("//" + authority, path, '#');
    Concat(scheme, ":", '#');
    Concat(scheme + ":", r, '#');
    assert scheme + "://" + authority + path == scheme + ":" + r;
    ParseWithoutFragment(scheme + ":" + r);
    ReferenceWithScheme(scheme, r);
  }

  /** `scheme://authority` and a plain path: the host is what the authority gives. */
  lemma ParseTarget(scheme: string, authority: string, path: string)
    requires ValidScheme(scheme) && PlainPath(path)
    requires Clean(authority) && Avoids(authority, '/') && Avoids(authority, '?') && Avoids(authority, '#')
    ensures var host := ParseAuthority(authority);
      Parse(scheme + "://" + authority + path) == if host.None? then None else Some(Url(ToLower(scheme), host.value, path))
  {
    SchemeFacts(scheme);
    AuthorityForm(scheme, authority, path);
    RestIsAuthority(ToLower(scheme), authority, path);
  }

  /** `scheme://host[:port]path` parses to the lower-cased scheme, exactly the host, and the path. */
  lemma ParseSchemeHost(scheme: string, host: string, path: string)
    requires ValidScheme(scheme) && PlainHost(host) && PlainPath(path)
    ensures Parse(scheme + "://" + host + path) == Some(Url(ToLower(scheme), host, path))
  {
    AuthorityIsHost("", host);
    HostFacts(host);
    ParseTarget(scheme, host, path);
  }

  /** Valid userinfo before the host is dropped: the parse is that of the URL without it. */
  lemma UserinfoDropped(scheme: string, user: string, host: string, path: string, s: string)
    requires ValidScheme(scheme) && PlainHost(host) && PlainPath(path) && PlainUser(user)
    requires s == scheme + "://" + (user + "@" + host) + path
    ensures Parse(s) == Some(Url(ToLower(scheme), host, path))
  {
    AuthorityIsHost(user, host);
    UserHostFacts(user, host);
    ParseTarget(scheme, user + "@" + host, path);
  }

  lemma UserHostFacts(user: string, host: string)
    requires PlainHost(host) && PlainUser(user)
    ensures var a := user + "@" + host;
      Clean(a) && Avoids(a, '/') && Avoids(a, '?') && Avoids(a, '#')
  {
    HostFacts(host);
    UserFacts(user);
    Concat(user, "@", '/'); Concat(user + "@", host, '/');
    Concat(user, "@", '?'); Concat(user + "@", host, '?');
    Concat(user, "@", '#'); Concat(user + "@", host, '#');
  }

  /** A port after the last ':' that is not all digits makes url.Parse fail ("invalid port"). */
  lemma BadPortRefused(scheme: string, host: string, path: string, s: string)
    requires ValidScheme(scheme) && PlainPath(path)
    requires forall i :: 0 <= i < |host| ==> HostChar(host[i])
    requires host == [] || host[0] != '['
    requires LastIndexOf(host, ':') >= 0 && !AllDigits(host[LastIndexOf(host, ':') + 1..])
    requires s == scheme + "://" + host + path
    ensures Parse(s).None?
  {
    HostFacts(host);
    BadPortAuthority(host);
    ParseTarget(scheme, host, path);
  }

  lemma BadPortAuthority(host: string)
    requires Avoids(host, '@') && (host == [] || host[0] != '[')
    requires LastIndexOf(host, ':') >= 0 && !AllDigits(host[LastIndexOf(host, ':') + 1..])
    ensures ParseAuthority(host).None?
  {
    BadPortHost(host);
    assert LastIndexOf(host, '@') == -1;
    assert host[0..] == host;
  }

  lemma BadPortHost(host: string)
    requires host == [] || host[0] != '['
    requires LastIndexOf(host, ':') >= 0 && !AllDigits(host[LastIndexOf(host, ':') + 1..])
    ensures ParseHost(host).None?
  {
  }

  /** ParseRest reads only the text before the first '?'. */
  lemma RestIgnoresQuery(scheme: string, r: string, query: string)
    requires Avoids(r, '?')
    ensures ParseRest(scheme, r + "?" + query) == ParseRest(scheme, r)
  {
    IndexAfter(r, "?" + query, '?');
    assert r + ("?" + query) == r + "?" + query;
    assert (r + "?" + query)[..|r|] == r;
    IndexAbsent(r, '?');
  }

  /** The query after '?' is not examined: the host and path are those of the text before it. */
  lemma QueryIgnored(scheme: string, host: string, query: string, s: string)
    requires ValidScheme(scheme) && PlainHost(host) && Avoids(query, '#') && Clean(query)
    requires s == scheme + ":" + ("//" + host + "?" + query)
    ensures Parse(s) == Some(Url(ToLower(scheme), host, ""))
  {
    HostFacts(host);
    SchemeFacts(scheme);
    var r := "//" + host;
    Concat("//", host, '?');
    Concat("//", host, '#');
    QueryTextFacts(scheme, r, query);
    ParseWithoutFragment(s);
    ReferenceWithScheme(scheme, r + "?" + query);
    RestIgnoresQuery(ToLower(scheme), r, query);
    assert r == "//" + host + "";
    RestIsAuthority(ToLower(scheme), host, "");
    AuthorityIsHost("", host);
  }

  lemma QueryTextFacts(scheme: string, r: string, query: string)
    requires Clean(scheme) && Avoids(scheme, '#') && Clean(r) && Avoids(r, '#') && Clean(query) && Avoids(query, '#')
    ensures Avoids(scheme + ":" + (r + "?" + query), '#') && Clean(scheme + ":" + (r + "?" + query))
  {
    Concat(r, "?", '#'); Concat(r + "?", query, '#');
    Concat(scheme, ":", '#'); Concat(scheme + ":", r + "?" + query, '#');
  }

  /** A fragment with valid escapes is cut off and leaves the host and path as they were. */
  lemma FragmentIgnored(scheme: string, host: string, fragment: string, s: string)
    requires ValidScheme(scheme) && PlainHost(host) && EscapesValid(fragment)
    requires s == scheme + "://" + host + "#" + fragment
    ensures Parse(s) == Some(Url(ToLower(scheme), host, ""))
  {
    ParseSchemeHost(scheme, host, "");
    HostFacts(host);
    AuthorityForm(scheme, host, "");
    var t := scheme + "://" + host;
    assert t + "" == t;
    ParseWithFragment(t, fragment);
    ParseWithoutFragment(t);
  }

  lemma HttpScheme()
    ensures ValidScheme("http") && ValidScheme("HTTP") && ToLower("HTTP") == "http" && ToLower("http") == "http"
  {
    assert forall k :: 0 <= k < 4 ==> IsLetter("http"[k]) && IsLetter("HTTP"[k]);
  }

  /** `name:port` with a name of host characters other than ':' and an all-digit port. */
  lemma NamePortHost(name: string, port: string)
    requires forall i :: 0 <= i < |name| ==> HostChar(name[i]) && name[i] != ':'
    requires name == [] || name[0] != '['
    requires AllDigits(port)
    ensures PlainHost(name + ":" + port)
  {
    var h := name + ":" + port;
    assert Avoids(port, ':');
    assert h == name + [':'] + port;
    LastIndexAfter(name, port, ':');
    assert h[|name| + 1..] == port;
  }

  lemma SvcHost()
    ensures PlainHost("svc:8081")
  {
    NamePortHost("svc", "8081");
    assert "svc" + ":" + "8081" == "svc:8081";
  }

  /** Credentials in the target are dropped from the host Go's handler sets. */
  lemma CredentialsDropped()
    ensures Parse("http://u:p@svc:8081") == Some(Url("http", "svc:8081", ""))
  {
    HttpScheme();
    SvcHost();
    assert PlainUser("u:p");
    UserinfoDropped("http", "u:p", "svc:8081", "", "http://u:p@svc:8081");
  }

  lemma QueryDropped()
    ensures Parse("http://svc:8081?x=1") == Some(Url("http", "svc:8081", ""))
  {
    HttpScheme();
    SvcHost();
    QueryIgnored("http", "svc:8081", "x=1", "http://svc:8081?x=1");
  }

  lemma FragmentDropped()
    ensures Parse("http://svc:8081#frag") == Some(Url("http", "svc:8081", ""))
  {
    HttpScheme();
    SvcHost();
    FragmentIgnored("http", "svc:8081", "frag", "http://svc:8081#frag");
  }

  /** A non-numeric port is the "invalid port" error. */
  lemma NonNumericPortRefused()
    ensures Parse("http://localhost:80a1").None?
  {
    HttpScheme();
    LocalhostBadPort();
    BadPortRefused("http", "localhost:80a1", "", "http://localhost:80a1");
  }

  lemma LocalhostBadPort()
    ensures var h := "localhost:80a1";
      && (forall i :: 0 <= i < |h| ==> HostChar(h[i]))
      && LastIndexOf(h, ':') == 9 && !AllDigits(h[10..])
  {
    var h := "localhost:80a1";
    assert forall i :: 0 <= i < |h| ==> HostChar(h[i]);
    assert Avoids("80a1", ':');
    assert h == "localhost" + [':'] + "80a1";
    LastIndexAfter("localhost", "80a1", ':');
    assert !IsDigit(h[10..][2]);
  }
}
