/** Exact-host matching of Origin, Referer and Host values. */
module Origins {
  import opened Wrappers
  import opened Text

  // ---- urlsplit, as far as the callers use it ------------------------------------

  const DELIMITERS: set<char> := {'/', '?', '#'}

  /** Values with these may hold an address in brackets, which the functions below do not read as urlsplit does. */
  const BRACKETS: set<char> := {'[', ']'}

  /** ASCII without brackets: neither the address syntax nor the normalisation check of urlsplit comes into play. */
  predicate Ordinary(s: string) {
    forall i :: 0 <= i < |s| ==> s[i] < '\U{80}' && s[i] !in BRACKETS
  }

  predicate Unsafe(c: char) { c == '\t' || c == '\r' || c == '\n' }

  /** urlsplit deletes tabs and line breaks wherever they stand. */
  function Clean(s: string): string {
    if s == [] then [] else (if Unsafe(s[0]) then [] else [s[0]]) + Clean(s[1..])
  }

  /** urlsplit drops leading control characters and blanks. */
  function LStripControl(s: string): string {
    if s != [] && s[0] <= ' ' then LStripControl(s[1..]) else s
  }

  predicate SchemeChar(c: char) { Letter(c) || Digit(c) || c == '+' || c == '-' || c == '.' }

  /** Section 3.1 of RFC 3986. */
  predicate ValidScheme(s: string) {
    s != [] && Letter(s[0]) && forall i :: 0 <= i < |s| ==> SchemeChar(s[i])
  }

  datatype Parts = Parts(scheme: string, netloc: string)

  /** The authority of what follows the scheme: section 3.2 of RFC 3986. */
  function Netloc(rest: string): string {
    if "//" <= rest then Before(rest[2..], DELIMITERS) else ""
  }

  function UrlSplit(url: string): Parts {
    var u := Clean(LStripControl(url));
    var head := Before(u, {':'});
    if |head| < |u| && ValidScheme(head) then Parts(Lower(head), Netloc(u[|head| + 1..])) else Parts("", Netloc(u))
  }

  /** The host of an authority: no userinfo, no port, lower case up to a zone. None if it is empty. */
  function Hostname(netloc: string): Option<string> {
    var host := Before(AfterLast(netloc, '@'), {':'});
    var name := Before(host, {'%'});
    if host == "" then None else Some(Lower(name) + host[|name|..])
  }

  // ---- The module's own functions ------------------------------------------------

  predicate Absent(candidate: string) {
    candidate == "" || Lower(candidate) == "null"
  }

  function OriginHost(value: string): Option<string> {
    var candidate := Strip(value);
    if Absent(candidate) then None
    else
      var parts := UrlSplit(candidate);
      if parts.scheme == "" || Hostname(parts.netloc).None? then None
      else Some(RStripDots(Hostname(parts.netloc).value))
  }

  predicate HostAllowed(value: string, allowed: set<string>) {
    OriginHost(value).Some? && OriginHost(value).value in allowed
  }

  function AuthorityHost(value: string): Option<string> {
    var candidate := Strip(value);
    if Absent(candidate) then None
    else
      var parts := UrlSplit("//" + candidate);
      if Hostname(parts.netloc).None? then None else Some(RStripDots(Hostname(parts.netloc).value))
  }

  predicate AuthorityAllowed(value: string, allowed: set<string>) {
    AuthorityHost(value).Some? && AuthorityHost(value).value in allowed
  }

  /** mcp_allowed_origin_hosts */
  function AllowedOriginHosts(origins: set<string>): set<string> {
    set o | o in origins && OriginHost(o).Some? :: OriginHost(o).value
  }

  /** mcp_request_hosts */
  function RequestHosts(hosts: set<string>): set<string> {
    set h | h in hosts :: Lower(h)
  }

  // ---- Stripping and splitting ---------------------------------------------------

  lemma {:induction false} CleanAppend(a: string, b: string)
    requires forall i :: 0 <= i < |a| ==> !Unsafe(a[i])
    ensures Clean(a + b) == a + Clean(b)
  {
    if a == [] {
      assert a + b == b;
    } else {
      assert (a + b)[1..] == a[1..] + b;
      CleanAppend(a[1..], b);
    }
  }

  lemma {:induction false} CleanIsClean(s: string)
    ensures forall i :: 0 <= i < |Clean(s)| ==> !Unsafe(Clean(s)[i])
  {
    if s != [] {
      CleanIsClean(s[1..]);
    }
  }

  /** Splitting `scheme:rest`. */
  lemma SplitWithScheme(scheme: string, rest: string)
    requires ValidScheme(scheme)
    ensures UrlSplit(scheme + ":" + rest) == Parts(Lower(scheme), Netloc(Clean(rest)))
  {
    hide Netloc, Before, Clean;
    var url := scheme + ":" + rest;
    assert url[0] == scheme[0] && LStripControl(url) == url;
    assert url == (scheme + ":") + rest;
    CleanAppend(scheme + ":", rest);
    var u := scheme + ":" + Clean(rest);
    assert Clean(url) == u && u == scheme + (":" + Clean(rest));
    BeforeStops(scheme, ":" + Clean(rest), {':'});
    assert u[|scheme| + 1..] == Clean(rest);
  }

  /** Splitting `//rest`: no scheme, whatever colons follow. */
  lemma SplitWithoutScheme(rest: string)
    ensures UrlSplit("//" + rest) == Parts("", Netloc("//" + Clean(rest)))
  {
    var url := "//" + rest;
    assert LStripControl(url) == url;
    CleanAppend("//", rest);
    BeforeIsPrefix("//" + Clean(rest), {':'});
    var head := Before("//" + Clean(rest), {':'});
    assert head != [] ==> head[0] == '/';
  }

  lemma NetlocOf(authority: string, tail: string)
    requires Avoids(authority, DELIMITERS) && (tail == [] || tail[0] in DELIMITERS)
    ensures Netloc("//" + (authority + tail)) == authority
  {
    assert ("//" + (authority + tail))[2..] == authority + tail;
    BeforeStops(authority, tail, DELIMITERS);
  }

  // ---- The round trip ------------------------------------------------------------

  predicate HostChar(c: char) { Letter(c) || Digit(c) || c == '-' || c == '.' }

  /** A DNS-style host name. */
  predicate DnsHost(host: string) {
    host != [] && host[|host| - 1] != '.' && forall i :: 0 <= i < |host| ==> HostChar(host[i])
  }

  predicate DigitsOnly(s: string) { forall i :: 0 <= i < |s| ==> Digit(s[i]) }

  /** `user@host...:port`, with any number of trailing dots and each of the other parts optional. */
  function Authority(user: Option<string>, host: string, dots: nat, port: Option<string>): string {
    (if user.Some? then user.value + "@" else "") + (host + Dots(dots) + if port.Some? then ":" + port.value else "")
  }

  predicate PlainUser(user: Option<string>) {
    user.Some? ==> Ordinary(user.value) && forall i :: 0 <= i < |user.value| ==> !Unsafe(user.value[i]) && user.value[i] !in DELIMITERS
  }

  lemma AuthorityShape(user: Option<string>, host: string, dots: nat, port: Option<string>)
    requires PlainUser(user) && (forall i :: 0 <= i < |host| ==> HostChar(host[i])) && |host| + dots > 0
    requires port.Some? ==> DigitsOnly(port.value)
    ensures var a := Authority(user, host, dots, port);
            && a != [] && !Space(a[|a| - 1]) && Avoids(a, DELIMITERS) && forall i :: 0 <= i < |a| ==> !Unsafe(a[i])
  {
  }

  lemma HostInfoOf(user: Option<string>, info: string)
    requires Avoids(info, {'@'})
    ensures AfterLast((if user.Some? then user.value + "@" else "") + info, '@') == info
  {
    if user.Some? {
      assert user.value + "@" + info == user.value + ['@'] + info;
      AfterLastWith(user.value, '@', info);
    } else {
      assert "" + info == info;
      AfterLastWithout(info, '@');
    }
  }

  /** Cutting the port and folding the case. */
  lemma HostnameOfInfo(netloc: string, dotted: string, p: string)
    requires AfterLast(netloc, '@') == dotted + p
    requires dotted != "" && Avoids(dotted, {':', '%'}) && (p == "" || p[0] == ':')
    ensures Hostname(netloc) == Some(Lower(dotted))
  {
    BeforeStops(dotted, p, {':'});
    BeforeStops(dotted, [], {'%'});
    assert dotted + [] == dotted;
    assert Lower(dotted) + dotted[|dotted|..] == Lower(dotted);
  }

  lemma HostnameOf(user: Option<string>, host: string, dots: nat, port: Option<string>)
    requires (forall i :: 0 <= i < |host| ==> HostChar(host[i])) && |host| + dots > 0
    requires port.Some? ==> DigitsOnly(port.value)
    ensures Hostname(Authority(user, host, dots, port)) == Some(Lower(host) + Dots(dots))
  {
    var dotted := host + Dots(dots);
    var p := if port.Some? then ":" + port.value else "";
    HostInfoAvoids(host, dots, port);
    HostInfoOf(user, dotted + p);
    HostnameOfInfo(Authority(user, host, dots, port), dotted, p);
    hide Hostname, AfterLast, Avoids;
    assert Lower(dotted) == Lower(host) + Dots(dots);
  }

  lemma HostInfoAvoids(host: string, dots: nat, port: Option<string>)
    requires forall i :: 0 <= i < |host| ==> HostChar(host[i])
    requires port.Some? ==> DigitsOnly(port.value)
    ensures Avoids(host + Dots(dots), {':', '%'})
    ensures Avoids(host + Dots(dots) + if port.Some? then ":" + port.value else "", {'@'})
  {
  }

  lemma StripPrinted(head: string, tail: string)
    requires head != [] && !Space(head[0]) && !Space(head[|head| - 1])
    ensures Strip(head + tail) == head + RStrip(tail)
  {
    assert (head + tail)[0] == head[0];
    RStripAppend(head, tail);
  }

  lemma CleanTail(tail: string)
    requires tail == [] || tail[0] in DELIMITERS
    ensures Clean(RStrip(tail)) == [] || Clean(RStrip(tail))[0] in DELIMITERS
  {
    RStripIsPrefix(tail);
  }

  /** Whatever the scheme, user, case, trailing dots, port and path, the host is the one that was printed,
      in lower case. */
  lemma OriginRoundTrip(scheme: string, user: Option<string>, host: string, dots: nat, port: Option<string>, tail: string)
    requires ValidScheme(scheme) && DnsHost(host) && PlainUser(user)
    requires port.Some? ==> DigitsOnly(port.value)
    requires tail == [] || tail[0] in DELIMITERS
    ensures OriginHost(scheme + "://" + Authority(user, host, dots, port) + tail) == Some(Lower(host))
  {
    OriginOf(scheme, user, host, dots, port, tail);
    RStripDotsAppend(Lower(host), dots);
  }

  lemma OriginOf(scheme: string, user: Option<string>, host: string, dots: nat, port: Option<string>, tail: string)
    requires ValidScheme(scheme) && PlainUser(user)
    requires (forall i :: 0 <= i < |host| ==> HostChar(host[i])) && |host| + dots > 0
    requires port.Some? ==> DigitsOnly(port.value)
    requires tail == [] || tail[0] in DELIMITERS
    ensures OriginHost(scheme + "://" + Authority(user, host, dots, port) + tail) == Some(RStripDots(Lower(host) + Dots(dots)))
  {
    var a := Authority(user, host, dots, port);
    AuthorityShape(user, host, dots, port);
    HostnameOf(user, host, dots, port);
    hide Authority, Hostname;
    StripPrinted(scheme + "://" + a, tail);
    CleanTail(tail);
    SplitPrinted(scheme, a, RStrip(tail));
    SplitCandidate(scheme + "://" + a + tail, scheme, a);
  }

  /** From the split of the stripped text to the answer. */
  lemma SplitCandidate(value: string, scheme: string, authority: string)
    requires scheme != "" && UrlSplit(Strip(value)) == Parts(Lower(scheme), authority) && Hostname(authority).Some?
    requires |Strip(value)| > |scheme| && Strip(value)[|scheme|] == ':'
    ensures OriginHost(value) == Some(RStripDots(Hostname(authority).value))
  {
    var candidate := Strip(value);
    assert Lower(candidate)[|scheme|] == ':';
    NotNull(Lower(candidate), |scheme|);
    assert Lower(scheme) != "";
  }

  lemma SplitPrinted(scheme: string, a: string, tail: string)
    requires ValidScheme(scheme) && Avoids(a, DELIMITERS) && (forall i :: 0 <= i < |a| ==> !Unsafe(a[i]))
    requires Clean(tail) == [] || Clean(tail)[0] in DELIMITERS
    ensures UrlSplit(scheme + "://" + a + tail) == Parts(Lower(scheme), a)
  {
    hide UrlSplit, Netloc, Clean, ValidScheme, DELIMITERS;
    assert scheme + "://" + a + tail == scheme + ":" + ("//" + a + tail);
    SplitWithScheme(scheme, "//" + a + tail);
    CleanAppend("//" + a, tail);
    assert "//" + a + Clean(tail) == "//" + (a + Clean(tail));
    NetlocOf(a, Clean(tail));
  }

  lemma NotNull(s: string, i: nat)
    requires i < |s| && s[i] == ':'
    ensures s != "null" && s != ""
  {
    assert "null"[0] != ':' && "null"[1] != ':' && "null"[2] != ':' && "null"[3] != ':';
  }

  /** So an origin is allowed exactly when its own host is listed. */
  lemma AllowedExactlyByHost(scheme: string, user: Option<string>, host: string, dots: nat, port: Option<string>,
                             tail: string, allowed: set<string>)
    requires ValidScheme(scheme) && DnsHost(host) && PlainUser(user)
    requires port.Some? ==> DigitsOnly(port.value)
    requires tail == [] || tail[0] in DELIMITERS
    ensures HostAllowed(scheme + "://" + Authority(user, host, dots, port) + tail, allowed) <==> Lower(host) in allowed
  {
    OriginRoundTrip(scheme, user, host, dots, port, tail);
  }

  lemma PlainOrigin(host: string, allowed: set<string>)
    requires DnsHost(host)
    ensures HostAllowed("https://" + host, allowed) <==> Lower(host) in allowed
  {
    hide HostAllowed, DnsHost, Lower;
    AllowedExactlyByHost("https", None, host, 0, None, "", allowed);
    assert Authority(None, host, 0, None) == host;
    assert "https" + "://" + host + "" == "https://" + host;
  }

  /** A printed origin yields the empty name, not None, exactly when its host is dots alone. */
  lemma DotsAreTheEmptyHost(scheme: string, user: Option<string>, host: string, dots: nat, port: Option<string>, tail: string)
    requires ValidScheme(scheme) && PlainUser(user)
    requires (forall i :: 0 <= i < |host| ==> HostChar(host[i])) && |host| + dots > 0
    requires port.Some? ==> DigitsOnly(port.value)
    requires tail == [] || tail[0] in DELIMITERS
    ensures OriginHost(scheme + "://" + Authority(user, host, dots, port) + tail) == Some("") <==>
            AllDots(host)
  {
    OriginOf(scheme, user, host, dots, port, tail);
    hide OriginHost, Authority, RStripDots, HostChar;
    FoldedDots(host, Dots(dots));
    assert AllDots(host + Dots(dots)) <==> AllDots(host) by {
      assert forall i :: 0 <= i < |host| ==> (host + Dots(dots))[i] == host[i];
    }
  }

  /** The host as the value writes it: between userinfo and port. */
  function Written(netloc: string): string {
    Before(AfterLast(netloc, '@'), {':'})
  }

  predicate AllDots(s: string) {
    forall i :: 0 <= i < |s| ==> s[i] == '.'
  }

  lemma FoldedDots(name: string, zone: string)
    ensures RStripDots(Lower(name) + zone) == "" <==> AllDots(name + zone)
  {
    var folded := Lower(name) + zone;
    RStripDotsShape(folded);
    assert forall i :: 0 <= i < |folded| ==> (folded[i] == '.' <==> (name + zone)[i] == '.');
    hide RStripDots;
  }

  /** Of all ordinary values, exactly those with a scheme and a host of dots alone yield the empty name. */
  lemma EmptyHostExactlyWhen(value: string)
    requires Ordinary(value)
    ensures OriginHost(value) == Some("") <==>
            var parts := UrlSplit(Strip(value));
            !Absent(Strip(value)) && parts.scheme != "" && Written(parts.netloc) != "" && AllDots(Written(parts.netloc))
  {
    hide UrlSplit, Before, AfterLast, RStripDots, Strip, Lower, AllDots;
    var host := Written(UrlSplit(Strip(value)).netloc);
    var name := Before(host, {'%'});
    BeforeIsPrefix(host, {'%'});
    FoldedDots(name, host[|name|..]);
    assert name + host[|name|..] == host;
  }

  // ---- What an Origin value is, character by character ---------------------------

  /** Nothing in it that urlsplit drops. */
  predicate Tidy(v: string) {
    (v != "" ==> v[0] > ' ') && forall i :: 0 <= i < |v| ==> !Unsafe(v[i])
  }

  /** `host`, in lower case up to a zone, is `h` followed by dots. */
  ghost predicate Folds(host: string, h: string) {
    (h != "" ==> h[|h| - 1] != '.') && exists name, zone, n: nat :: FoldedAs(host, h, name, zone, n)
  }

  predicate FoldedAs(host: string, h: string, name: string, zone: string, n: nat) {
    && host == name + zone && Avoids(name, {'%'}) && (zone != "" ==> zone[0] == '%')
    && Lower(name) + zone == h + Dots(n)
  }

  /** `user@host:port`, with the last `@` ending the user and the first `:` after it starting the port. */
  ghost predicate Holds(authority: string, h: string) {
    exists user, host, port :: Arranged(authority, user, host, port) && host != "" && Folds(host, h)
  }

  predicate Arranged(authority: string, user: string, host: string, port: string) {
    && authority == user + host + port
    && (user != "" ==> user[|user| - 1] == '@') && Avoids(host, {'@', ':'})
    && (port != "" ==> port[0] == ':') && Avoids(port, {'@'})
  }

  /** `scheme://authority` and perhaps a path, query or fragment. */
  predicate Composed(v: string, scheme: string, authority: string, tail: string) {
    && v == scheme + "://" + authority + tail && ValidScheme(scheme) && Avoids(authority, DELIMITERS)
    && (tail != "" ==> tail[0] in DELIMITERS)
  }

  ghost predicate Reads(v: string, h: string) {
    exists scheme, authority, tail :: Composed(v, scheme, authority, tail) && Holds(authority, h)
  }

  lemma {:induction false} CleanTidy(v: string)
    requires forall i :: 0 <= i < |v| ==> !Unsafe(v[i])
    ensures Clean(v) == v
  {
    if v != "" {
      CleanTidy(v[1..]);
    }
  }

  lemma {:induction false} LeadingControls(p: string, v: string)
    requires forall i :: 0 <= i < |p| ==> p[i] <= ' '
    ensures LStripControl(p + v) == LStripControl(v)
  {
    if p == "" {
      assert p + v == v;
    } else {
      assert (p + v)[1..] == p[1..] + v;
      LeadingControls(p[1..], v);
    }
  }

  lemma {:induction false} CleanInside(a: string, c: char, b: string)
    requires c == '\t' || c == '\r' || c == '\n'
    ensures Clean(a + [c] + b) == Clean(a + b)
  {
    if a == "" {
      assert (a + [c] + b)[1..] == b && a + b == b;
    } else {
      assert (a + [c] + b)[1..] == a[1..] + [c] + b && (a + b)[1..] == a[1..] + b;
      CleanInside(a[1..], c, b);
    }
  }

  /** The rest is tidied: control characters and blanks in front, and tabs and line breaks anywhere behind a visible
      character, make no difference to the split. */
  lemma SplitTidies(p: string, a: string, c: char, b: string)
    requires (forall i :: 0 <= i < |p| ==> p[i] <= ' ') && a != "" && a[0] > ' '
    requires c == '\t' || c == '\r' || c == '\n'
    ensures UrlSplit(p + (a + [c] + b)) == UrlSplit(a + b)
  {
    LeadingControls(p, a + [c] + b);
    CleanInside(a, c, b);
    assert LStripControl(a + [c] + b) == a + [c] + b && LStripControl(a + b) == a + b;
    hide Clean, LStripControl, Before, Netloc, ValidScheme, Lower;
  }

  lemma {:induction false} DotsOff(s: string) returns (n: nat)
    ensures s == RStripDots(s) + Dots(n)
  {
    if s != "" && s[|s| - 1] == '.' {
      var m := DotsOff(s[..|s| - 1]);
      n := m + 1;
      assert s == s[..|s| - 1] + ".";
    } else {
      n := 0;
      assert s + Dots(0) == s;
    }
  }

  lemma FoldsAreRead(host: string, name: string, zone: string, h: string, n: nat)
    requires host == name + zone && Avoids(name, {'%'}) && (zone != "" ==> zone[0] == '%') && (h != "" ==> h[|h| - 1] != '.')
    requires Lower(name) + zone == h + Dots(n)
    ensures h == RStripDots(Lower(Before(host, {'%'})) + host[|Before(host, {'%'})|..])
  {
    hide Before, RStripDots, Lower;
    BeforeStops(name, zone, {'%'});
    assert host[|name|..] == zone;
    RStripDotsAppend(h, n);
  }

  lemma FoldsExactly(host: string, h: string)
    ensures Folds(host, h) <==> h == RStripDots(Lower(Before(host, {'%'})) + host[|Before(host, {'%'})|..])
  {
    hide Before, RStripDots, Lower, Dots;
    var name := Before(host, {'%'});
    BeforeIsPrefix(host, {'%'});
    var zone := host[|name|..];
    assert host == name + zone;
    var folded := Lower(name) + zone;
    if h == RStripDots(folded) {
      RStripDotsShape(folded);
      var n := DotsOff(folded);
      assert FoldedAs(host, h, name, zone, n);
    }
    if Folds(host, h) {
      var name', zone', n: nat :| FoldedAs(host, h, name', zone', n);
      FoldsAreRead(host, name', zone', h, n);
    }
  }

  lemma AuthorityParts(authority: string) returns (user: string, port: string)
    ensures Arranged(authority, user, Before(AfterLast(authority, '@'), {':'}), port)
  {
    hide AfterLast, Before;
    var info := AfterLast(authority, '@');
    AfterLastAvoids(authority, '@', {});
    user := AfterLastSplits(authority, '@');
    BeforeIsPrefix(info, {':'});
    var host := Before(info, {':'});
    port := info[|host|..];
    AvoidsHere(info, host, port);
    assert authority == user + info && user + info == user + host + port;
    hide Avoids;
  }

  lemma AvoidsHere(info: string, host: string, port: string)
    requires info == host + port && Avoids(info, {'@'}) && Avoids(host, {':'})
    ensures Avoids(host, {'@', ':'}) && Avoids(port, {'@'})
  {
    forall i | 0 <= i < |host| ensures host[i] != '@' { assert info[i] == host[i]; }
    forall i | 0 <= i < |port| ensures port[i] != '@' { assert info[|host| + i] == port[i]; }
  }

  lemma {:induction false} AfterLastSplits(s: string, c: char) returns (head: string)
    ensures s == head + AfterLast(s, c) && (head != "" ==> head[|head| - 1] == c)
  {
    if s == "" || s[|s| - 1] == c {
      head := s;
      assert s + "" == s;
    } else {
      head := AfterLastSplits(s[..|s| - 1], c);
      assert s == s[..|s| - 1] + [s[|s| - 1]];
    }
  }

  lemma HoldsExactly(authority: string, h: string)
    ensures Holds(authority, h) <==> Hostname(authority).Some? && RStripDots(Hostname(authority).value) == h
  {
    var found := Before(AfterLast(authority, '@'), {':'});
    FoldsExactly(found, h);
    var u, p := AuthorityParts(authority);
    hide Before, AfterLast, RStripDots, Lower, Folds;
    if Holds(authority, h) {
      var user, host, port :| Arranged(authority, user, host, port) && host != "" && Folds(host, h);
      HostInParts(user, host, port);
    }
  }

  lemma HostInParts(user: string, host: string, port: string)
    requires (user != "" ==> user[|user| - 1] == '@') && Avoids(host, {'@', ':'})
    requires (port != "" ==> port[0] == ':') && Avoids(port, {'@'})
    ensures Before(AfterLast(user + host + port, '@'), {':'}) == host
  {
    assert user + host + port == user + (host + port);
    if user == "" {
      assert user + (host + port) == host + port;
      AfterLastWithout(host + port, '@');
    } else {
      assert user == user[..|user| - 1] + ['@'];
      AfterLastWith(user[..|user| - 1], '@', host + port);
    }
    BeforeStops(host, port, {':'});
  }

  lemma TidySplit(v: string, scheme: string, authority: string, tail: string)
    requires Tidy(v) && v == scheme + "://" + authority + tail && ValidScheme(scheme)
    requires Avoids(authority, DELIMITERS) && (tail != "" ==> tail[0] in DELIMITERS)
    ensures UrlSplit(v) == Parts(Lower(scheme), authority)
  {
    assert forall i :: 0 <= i < |authority| ==> authority[i] == v[|scheme| + 3 + i];
    assert forall i :: 0 <= i < |tail| ==> tail[i] == v[|scheme| + 3 + |authority| + i];
    CleanTidy(tail);
    SplitPrinted(scheme, authority, tail);
  }

  lemma NetlocParts(rest: string) returns (tail: string)
    requires Netloc(rest) != ""
    ensures rest == "//" + Netloc(rest) + tail && Avoids(Netloc(rest), DELIMITERS) && (tail != "" ==> tail[0] in DELIMITERS)
  {
    hide Before;
    BeforeIsPrefix(rest[2..], DELIMITERS);
    tail := rest[2..][|Netloc(rest)|..];
    assert rest == "//" + rest[2..];
  }

  lemma TidyHead(v: string)
    requires Tidy(v) && UrlSplit(v).scheme != ""
    ensures var head := Before(v, {':'});
            && |head| < |v| && v[|head|] == ':' && ValidScheme(head) && UrlSplit(v).netloc == Netloc(v[|head| + 1..])
            && v == head + ":" + v[|head| + 1..]
  {
    CleanTidy(v);
    assert LStripControl(v) == v;
    BeforeIsPrefix(v, {':'});
    hide Before, Clean, LStripControl, Netloc, Lower, ValidScheme;
    var head := Before(v, {':'});
    assert |head| < |v|;
    assert v == head + [v[|head|]] + v[|head| + 1..];
  }

  lemma TidyParts(v: string) returns (scheme: string, tail: string)
    requires Tidy(v) && UrlSplit(v).scheme != "" && UrlSplit(v).netloc != ""
    ensures var authority := UrlSplit(v).netloc;
            && v == scheme + "://" + authority + tail && ValidScheme(scheme) && Avoids(authority, DELIMITERS)
            && (tail != "" ==> tail[0] in DELIMITERS)
  {
    hide Before, UrlSplit, Netloc, DELIMITERS, Tidy, ValidScheme, Avoids;
    TidyHead(v);
    scheme := Before(v, {':'});
    var rest := v[|scheme| + 1..];
    tail := NetlocParts(rest);
    var authority := Netloc(rest);
    assert scheme + ":" + ("//" + authority + tail) == scheme + "://" + authority + tail;
  }

  /** A tidy, ordinary value has the host `h` exactly when it reads `scheme://user@host:port/...` with that host, up to case and
      trailing dots: without a scheme, a `//` or a host it has none. */
  lemma OriginHostExactly(value: string, h: string)
    requires Ordinary(value) && Tidy(Strip(value))
    ensures OriginHost(value) == Some(h) <==> Reads(Strip(value), h)
  {
    if OriginHost(value) == Some(h) {
      HostIsRead(value, h);
    }
    if Reads(Strip(value), h) {
      ReadIsHost(value, h);
    }
    hide OriginHost, Reads, Strip;
  }

  lemma HostIsRead(value: string, h: string)
    requires Tidy(Strip(value)) && OriginHost(value) == Some(h)
    ensures Reads(Strip(value), h)
  {
    var v := Strip(value);
    hide UrlSplit, Hostname, RStripDots, Lower, Strip, Holds;
    var authority := UrlSplit(v).netloc;
    HoldsExactly(authority, h);
    NoHostOfNothing();
    var scheme, tail := TidyParts(v);
    assert Composed(v, scheme, authority, tail);
  }

  lemma ReadIsHost(value: string, h: string)
    requires Tidy(Strip(value)) && Reads(Strip(value), h)
    ensures OriginHost(value) == Some(h)
  {
    var v := Strip(value);
    hide UrlSplit, Hostname, RStripDots, Lower, Strip, Holds, DELIMITERS;
    var scheme, authority, tail :| Composed(v, scheme, authority, tail) && Holds(authority, h);
    TidySplit(v, scheme, authority, tail);
    HoldsExactly(authority, h);
    assert v[|scheme|] == ':';
    LowerKeepsLength(scheme);
    NotAbsent(v, |scheme|);
  }

  lemma LowerKeepsLength(s: string)
    ensures |Lower(s)| == |s|
  {
  }

  lemma NoHostOfNothing()
    ensures Hostname("").None?
  {
  }

  lemma NotAbsent(v: string, i: nat)
    requires i < |v| && v[i] == ':'
    ensures !Absent(v)
  {
    assert Lower(v)[i] == ':';
    NotNull(Lower(v), i);
  }

  lemma StripSubset(value: string, c: char)
    requires c !in value
    ensures c !in Strip(value)
  {
    hide Strip, Blank;
    var v := Strip(value);
    StripExactly(value, v);
    var left, right :| Padded(value, left, v, right);
    assert forall i :: 0 <= i < |v| ==> v[i] == value[|left| + i];
  }

  /** Without a colon there is no scheme and so no host, whether the value is tidy or not. */
  lemma NoColonNoHost(value: string)
    requires Ordinary(value) && ':' !in value
    ensures OriginHost(value) == None
  {
    hide Clean, LStripControl, Before, Hostname, Strip, Netloc, Lower;
    StripSubset(value, ':');
    KeepsNoColon(Strip(value));
    BeforeIsPrefix(Clean(LStripControl(Strip(value))), {':'});
  }

  lemma {:induction false} CleanSubset(v: string, c: char)
    requires c !in v
    ensures c !in Clean(v)
  {
    if v != "" {
      CleanSubset(v[1..], c);
    }
  }

  lemma {:induction false} KeepsNoColon(v: string)
    requires ':' !in v
    ensures ':' !in Clean(LStripControl(v))
  {
    if v != "" && v[0] <= ' ' {
      KeepsNoColon(v[1..]);
    } else {
      CleanSubset(v, ':');
    }
  }

  // ---- Two parsers ---------------------------------------------------------------

  lemma StripStripped(s: string, a: string)
    requires ValidScheme(s) && a != "" && Strip(a) == a
    ensures Strip(s + "://" + a) == s + "://" + a
  {
    StrippedEnds(a);
    var url := s + "://" + a;
    assert url[0] == s[0] && url[|url| - 1] == a[|a| - 1];
  }

  lemma {:induction false} LStripShorter(s: string)
    ensures |LStrip(s)| <= |s| && (|LStrip(s)| == |s| ==> LStrip(s) == s)
  {
    if s != [] && Space(s[0]) {
      LStripShorter(s[1..]);
    }
  }

  lemma StrippedEnds(a: string)
    requires a != "" && Strip(a) == a
    ensures !Space(a[0]) && !Space(a[|a| - 1])
  {
    LStripShorter(a);
    RStripIsPrefix(LStrip(a));
    LStripShorter(a[1..]);
    RStripIsPrefix(a[..|a| - 1]);
  }

  /** The Origin parser and the Host parser read the same host from the same authority, bracketed addresses apart. */
  lemma ParsersAgree(scheme: string, a: string)
    requires ValidScheme(scheme) && a != "" && Strip(a) == a && Lower(a) != "null" && Avoids(a, BRACKETS)
    ensures OriginHost(scheme + "://" + a) == AuthorityHost(a)
  {
    var url := scheme + "://" + a;
    StripStripped(scheme, a);
    assert Lower(url)[|scheme|] == ':';
    NotNull(Lower(url), |scheme|);
    assert url == scheme + ":" + ("//" + a);
    SplitWithScheme(scheme, "//" + a);
    CleanAppend("//", a);
    SplitWithoutScheme(a);
  }

  /** A Host value yields the host that was printed, in lower case; only a bare `null` yields nothing. */
  lemma AuthorityRoundTrip(host: string, dots: nat, port: Option<string>)
    requires DnsHost(host) && (port.Some? ==> DigitsOnly(port.value))
    ensures var a := Authority(None, host, dots, port);
            AuthorityHost(a) == if Lower(a) == "null" then None else Some(Lower(host))
  {
    hide OriginHost, UrlSplit, Hostname, Lower;
    var a := Authority(None, host, dots, port);
    AuthorityShape(None, host, dots, port);
    assert a[0] == host[0];
    StripPrinted(a, "");
    assert a + RStrip("") == a && a + "" == a;
    if Lower(a) != "null" {
      ParsersAgree("http", a);
      OriginRoundTrip("http", None, host, dots, port, "");
      assert "http" + "://" + a + "" == "http" + "://" + a;
    }
  }

  // ---- What an allowlist entry must look like ------------------------------------

  const SEPARATORS: set<char> := {'/', '?', '#', '@', ':', '\t', '\r', '\n'}

  /** No separator, no trailing dot, and lower case up to a zone. */
  predicate Matchable(entry: string) {
    && Avoids(entry, SEPARATORS)
    && (entry != [] ==> entry[|entry| - 1] != '.')
    && Lower(Before(entry, {'%'})) == Before(entry, {'%'})
  }

  lemma FoldedAvoids(name: string, zone: string, stop: char)
    requires Avoids(name + zone, {stop}) && !Letter(stop)
    ensures Avoids(Lower(name) + zone, {stop})
  {
    forall i | 0 <= i < |name|
      ensures LowerChar(name[i]) != stop
    {
      assert (name + zone)[i] == name[i];
    }
    forall i | 0 <= i < |zone|
      ensures zone[i] != stop
    {
      assert (name + zone)[|name| + i] == zone[i];
    }
  }

  lemma FoldedAvoidsSeparators(name: string, zone: string)
    requires Avoids(name + zone, SEPARATORS)
    ensures Avoids(Lower(name) + zone, SEPARATORS)
  {
    var full := Lower(name) + zone;
    forall stop | stop in SEPARATORS
      ensures Avoids(full, {stop})
    {
      FoldedAvoids(name, zone, stop);
    }
    forall i | 0 <= i < |full|
      ensures full[i] !in SEPARATORS
    {
      assert forall stop | stop in SEPARATORS :: Avoids(full, {stop}) && full[i] != stop;
    }
  }

  lemma PrefixAvoids(r: string, s: string, stops: set<char>)
    requires r <= s && Avoids(s, stops)
    ensures Avoids(r, stops)
  {
  }

  lemma FoldedIsLower(name: string, zone: string, r: string)
    requires Avoids(name, {'%'}) && r <= Lower(name) + zone && (zone != [] ==> zone[0] == '%')
    ensures Lower(Before(r, {'%'})) == Before(r, {'%'})
  {
    BeforeIsPrefix(r, {'%'});
    var b := Before(r, {'%'});
    hide Before;
    if |name| < |r| {
      assert r[|name|] == (Lower(name) + zone)[|name|] == '%';
      assert |b| <= |name|;
    }
    assert forall i :: 0 <= i < |b| ==> b[i] == Lower(name)[i];
  }

  /** Lower-casing up to a zone and dropping dots keep a host free of the separators. */
  lemma FoldedShape(host: string)
    requires Avoids(host, SEPARATORS)
    ensures Matchable(RStripDots(Lower(Before(host, {'%'})) + host[|Before(host, {'%'})|..]))
  {
    var name := Before(host, {'%'});
    BeforeIsPrefix(host, {'%'});
    var zone := host[|name|..];
    var r := RStripDots(Lower(name) + zone);
    RStripDotsShape(Lower(name) + zone);
    assert name + zone == host;
    FoldedAvoidsSeparators(name, zone);
    PrefixAvoids(r, Lower(name) + zone, SEPARATORS);
    FoldedIsLower(name, zone, r);
    hide Before, RStripDots, Lower, SEPARATORS, Avoids;
  }

  lemma HostnameShape(netloc: string)
    requires Avoids(netloc, {'/', '?', '#', '\t', '\r', '\n'}) && Hostname(netloc).Some?
    ensures Matchable(RStripDots(Hostname(netloc).value))
  {
    var info := AfterLast(netloc, '@');
    AfterLastAvoids(netloc, '@', {'/', '?', '#', '\t', '\r', '\n'});
    var host := Before(info, {':'});
    BeforeIsPrefix(info, {':'});
    hide Before, RStripDots, AfterLast, Matchable;
    assert forall i :: 0 <= i < |host| ==> host[i] == info[i];
    FoldedShape(host);
  }

  lemma NetlocShape(u: string)
    requires forall i :: 0 <= i < |u| ==> !Unsafe(u[i])
    ensures Avoids(Netloc(u), {'/', '?', '#', '\t', '\r', '\n'})
  {
    if "//" <= u {
      BeforeIsPrefix(u[2..], DELIMITERS);
    }
  }

  lemma SplitShape(url: string)
    ensures Avoids(UrlSplit(url).netloc, {'/', '?', '#', '\t', '\r', '\n'})
  {
    var u := Clean(LStripControl(url));
    CleanIsClean(LStripControl(url));
    NetlocShape(u);
    BeforeIsPrefix(u, {':'});
    var head := Before(u, {':'});
    if |head| < |u| {
      NetlocShape(u[|head| + 1..]);
    }
  }

  lemma OtherEntriesNeverMatch(entry: string, value: string)
    requires Ordinary(value) && !Matchable(entry)
    ensures OriginHost(value) != Some(entry) && AuthorityHost(value) != Some(entry)
  {
    var o, a := UrlSplit(Strip(value)), UrlSplit("//" + Strip(value));
    SplitShape(Strip(value));
    SplitShape("//" + Strip(value));
    if Hostname(o.netloc).Some? { HostnameShape(o.netloc); }
    if Hostname(a.netloc).Some? { HostnameShape(a.netloc); }
  }

  /** A value that a matchable entry matches. */
  function Witness(entry: string): string {
    "http" + "://" + ("@" + entry + ".") + "/"
  }

  lemma WitnessHost(entry: string)
    requires Matchable(entry)
    ensures Hostname("@" + entry + ".") == Some(entry + ".")
  {
    hide Before, AfterLast, Lower;
    var host, name := entry + ".", Before(entry + ".", {'%'});
    assert "@" + entry + "." == "" + "@" + host;
    HostInfoOf(Some(""), host);
    BeforeStops(host, [], {':'});
    assert host + [] == host;
    BeforeIsPrefix(host, {'%'});
    WitnessName(entry);
    assert Lower(name) + host[|name|..] == host;
  }

  lemma WitnessName(entry: string)
    requires Matchable(entry)
    ensures Lower(Before(entry + ".", {'%'})) == Before(entry + ".", {'%'})
  {
    hide Before, SEPARATORS;
    var host, name := entry + ".", Before(entry, {'%'});
    BeforeIsPrefix(entry, {'%'});
    if |name| < |entry| {
      assert host == name + (entry[|name|..] + ".");
      BeforeStops(name, entry[|name|..] + ".", {'%'});
    } else {
      assert name == entry && host + [] == host;
      BeforeStops(host, [], {'%'});
      assert forall i :: 0 <= i < |entry| ==> Lower(name)[i] == entry[i];
      assert Lower(host) == host;
    }
  }

  lemma WitnessSplit(entry: string)
    requires Matchable(entry)
    ensures Strip(Witness(entry)) == Witness(entry)
    ensures UrlSplit(Witness(entry)) == Parts(Lower("http"), "@" + entry + ".")
  {
    var a := "@" + entry + ".";
    assert Avoids(a, DELIMITERS);
    hide Matchable, UrlSplit, Lower;
    StripPrinted("http" + "://" + a + "/", "");
    assert RStrip("") == "" && "http" + "://" + a + "/" + "" == Witness(entry);
    SplitPrinted("http", a, "/");
  }

  lemma WitnessMatches(entry: string)
    requires Matchable(entry)
    ensures OriginHost(Witness(entry)) == Some(entry)
  {
    WitnessHost(entry);
    WitnessSplit(entry);
    assert entry == [] || entry[|entry| - 1] != '.';
    hide Matchable, Hostname, UrlSplit, OriginHost, Strip, RStripDots, Lower;
    SplitCandidate(Witness(entry), "http", "@" + entry + ".");
    assert Dots(1) == ".";
    RStripDotsAppend(entry, 1);
  }

  lemma WitnessIsOrdinary(entry: string)
    requires Ordinary(entry)
    ensures Ordinary(Witness(entry))
  {
  }

  /** An allowlist entry matches some ordinary value exactly when it is written without separators, trailing dot and
      capitals. One with a port, a path, userinfo, a trailing dot or upper case matches nothing. */
  lemma EntryMatchesExactlyWhen(entry: string)
    requires Ordinary(entry)
    ensures (exists value :: Ordinary(value) && OriginHost(value) == Some(entry)) <==> Matchable(entry)
  {
    hide OriginHost, AuthorityHost, Matchable, Ordinary, Witness;
    if exists value :: Ordinary(value) && OriginHost(value) == Some(entry) {
      var value :| Ordinary(value) && OriginHost(value) == Some(entry);
      if !Matchable(entry) {
        OtherEntriesNeverMatch(entry, value);
      }
    }
    if Matchable(entry) {
      WitnessMatches(entry);
      WitnessIsOrdinary(entry);
    }
  }

  // ---- Configured origins --------------------------------------------------------

  /** An origin as someone may write it into a setting or a header. */
  datatype Printed = Printed(scheme: string, user: Option<string>, host: string, dots: nat, port: Option<string>, tail: string)

  predicate WellPrinted(p: Printed) {
    && ValidScheme(p.scheme) && DnsHost(p.host) && PlainUser(p.user)
    && (p.port.Some? ==> DigitsOnly(p.port.value))
    && (p.tail == [] || p.tail[0] in DELIMITERS)
  }

  function Print(p: Printed): string {
    p.scheme + "://" + Authority(p.user, p.host, p.dots, p.port) + p.tail
  }

  function Settings(configured: set<Printed>): set<string> {
    set p | p in configured :: Print(p)
  }

  /** An origin is admitted exactly when one of the configured origins has the same host up to case, however scheme,
      userinfo, trailing dots, port and path differ. */
  lemma ConfiguredOrigins(configured: set<Printed>, p: Printed)
    requires WellPrinted(p) && forall q :: q in configured ==> WellPrinted(q)
    ensures HostAllowed(Print(p), AllowedOriginHosts(Settings(configured))) <==>
            exists q :: q in configured && Lower(q.host) == Lower(p.host)
  {
    hide OriginHost, Print, WellPrinted;
    PrintedHost(p);
    forall q | q in configured
      ensures OriginHost(Print(q)) == Some(Lower(q.host))
    {
      PrintedHost(q);
    }
    if exists q :: q in configured && Lower(q.host) == Lower(p.host) {
      var q :| q in configured && Lower(q.host) == Lower(p.host);
      assert Print(q) in Settings(configured);
    }
  }

  lemma PrintedHost(p: Printed)
    requires WellPrinted(p)
    ensures OriginHost(Print(p)) == Some(Lower(p.host))
  {
    OriginRoundTrip(p.scheme, p.user, p.host, p.dots, p.port, p.tail);
    hide OriginHost;
  }
}
