/** The URL sanitiser (`fgp_clean_image_url`) and the decision half of the
    image check (`fgp_is_valid_image_url`). */
module Urls {
  import opened Wrappers
  import opened Strings

  // ---------------------------------------------------------------------
  // parse_url

  /** The components `parse_url` reports. An absent component is None;
      the path is "" when absent, which is what concatenating PHP's null
      gives. */
  datatype UrlParts = UrlParts(
    scheme: Option<string>,
    user: Option<string>,
    host: Option<string>,
    port: Option<string>,
    path: string,
    query: Option<string>,
    fragment: Option<string>)

  predicate IsSchemeChar(c: char) {
    'a' <= c <= 'z' || 'A' <= c <= 'Z' || '0' <= c <= '9' || c == '+' || c == '-' || c == '.'
  }

  predicate IsSchemeName(s: string) {
    s != [] && forall i :: 0 <= i < |s| ==> IsSchemeChar(s[i])
  }

  /** `s` cut at the first `c`: what stands before it, and what follows it
      when `c` occurs at all. */
  function CutFirst(s: string, c: char): (string, Option<string>) {
    var i := IndexOf(s, c);
    if i < |s| then (s[..i], Some(s[i + 1..])) else (s, None)
  }

  /** `s` cut at the last `c`. */
  function CutLast(s: string, c: char): (string, Option<string>) {
    var i := LastIndexOf(s, c);
    if i < |s| then (s[..i], Some(s[i + 1..])) else (s, None)
  }

  /** The authority runs to the first '/'; the path is the rest, slash
      included. */
  function SplitPath(a: string): (string, string) {
    var i := IndexOf(a, '/');
    (a[..i], a[i..])
  }

  /** The user part ends at the last '@' of the authority. */
  function SplitUser(authority: string): (Option<string>, string) {
    var (before, after) := CutLast(authority, '@');
    if after.Some? then (Some(before), after.value) else (None, before)
  }

  /** A port follows the last ':' of host and port; an empty one is no port. */
  function SplitPort(hostPort: string): (string, Option<string>) {
    var (before, after) := CutLast(hostPort, ':');
    (before, if after.Some? && after.value != [] then after else None)
  }

  /** C's `isspace`: what `strtol` skips before the number. */
  predicate IsCSpace(c: char) {
    c == ' ' || c == '\t' || c == '\n' || c == '\U{000B}' || c == '\U{000C}' || c == '\r'
  }

  function SkipSpace(s: string): (r: string)
    ensures |r| <= |s| && r == s[|s| - |r|..]
    ensures r != [] ==> !IsCSpace(r[0])
  {
    if s != [] && IsCSpace(s[0]) then
      var r := SkipSpace(s[1..]);
      assert s[|s| - |r|..] == s[1..][|s| - 1 - |r|..];
      r
    else s
  }

  /** The longest run of decimal digits `s` starts with. */
  function DigitRun(s: string): (d: string)
    ensures |d| <= |s| && d == s[..|d|] && AllDigits(d)
    ensures |d| < |s| ==> !IsDigit(s[|d|])
  {
    if s != [] && IsDigit(s[0]) then
      var d := DigitRun(s[1..]);
      assert [s[0]] + d == s[..|d| + 1];
      [s[0]] + d
    else []
  }

  /** The value `strtol(s, &end, 10)` reads when it converts anything
      (white space, an optional sign, then at least one digit), or None
      when it leaves `end` at the start. Overflow is not modelled: a port
      reaches `strtol` with at most five characters. */
  function Strtol(s: string): Option<int> {
    var t := SkipSpace(s);
    var signed := t != [] && (t[0] == '+' || t[0] == '-');
    var d := DigitRun(if signed then t[1..] else t);
    var v: int := if d == [] then 0 else DigitsValue(d);
    if d == [] then None
    else Some(if signed && t[0] == '-' then -v else v)
  }

  /** The port text after a host that `parse_url` accepts: at most five
      characters that `strtol` reads as a number from 0 to 65535. Trailing
      characters after the number are ignored. */
  predicate PortAccepted(port: string) {
    |port| <= 5 && Strtol(port).Some? && 0 <= Strtol(port).value <= 65535
  }

  /** Parses what follows "//", or the whole rest once a port has been
      read in front of it (`preset`). An empty host makes the whole parse
      fail. Without a preset port, a non-empty port text after the last
      ':' must be accepted by `PortAccepted`, or the parse fails too; with
      one, the host stops at the last ':' and the preset port stands. The
      port is kept as the text it was read from. */
  function ParseAuthority(scheme: Option<string>, a: string, preset: Option<string>,
                          query: Option<string>, fragment: Option<string>): (r: Option<UrlParts>)
    ensures '?' !in a && '#' !in a && r.Some? ==>
            Sound(r.value) && r.value.scheme == scheme && r.value.query == query && r.value.fragment == fragment
  {
    AuthorityChars(a);
    var (authority, path) := SplitPath(a);
    var (user, hostPort) := SplitUser(authority);
    var (host, port) := SplitPort(hostPort);
    if host == [] || (preset.None? && port.Some? && !PortAccepted(port.value)) then None
    else Some(UrlParts(scheme, user, Some(host), if preset.Some? then preset else port, path, query, fragment))
  }

  /** The host and the path come out of `a`, and the host stops before
      the first '/'. */
  lemma AuthorityChars(a: string)
    ensures var (authority, path) := SplitPath(a);
            var host := SplitPort(SplitUser(authority).1).0;
            '/' !in host && (forall x :: x in host ==> x in a) && (forall x :: x in path ==> x in a)
  {
    var i := IndexOf(a, '/');
    var authority := a[..i];
    assert '/' !in authority;
    var hostPort := SplitUser(authority).1;
    assert forall x :: x in hostPort ==> x in authority by {
      var j := LastIndexOf(authority, '@');
      if j < |authority| {
        assert hostPort == authority[j + 1..];
      }
    }
    var host := SplitPort(hostPort).0;
    assert forall x :: x in host ==> x in hostPort by {
      var j := LastIndexOf(hostPort, ':');
      if j < |hostPort| {
        assert host == hostPort[..j];
      }
    }
  }

  /** One to five digits after a ':', running to the end of the URL
      (`atEnd`: no query and no fragment follow) or to a '/': what
      `parse_url` reads as a port before any host. */
  predicate PortFollows(tail: string, atEnd: bool) {
    var d := DigitRun(tail);
    0 < |d| <= 5 && ((|d| == |tail| && atEnd) || (|d| < |tail| && tail[|d|] == '/'))
  }

  /** Without a scheme: a leading "//" introduces a host, anything else is
      a bare path. */
  function NoScheme(rest: string, query: Option<string>, fragment: Option<string>): (r: Option<UrlParts>)
    ensures '?' !in rest && '#' !in rest && r.Some? ==>
            Sound(r.value) && r.value.scheme.None? && r.value.query == query && r.value.fragment == fragment
  {
    if "//" <= rest then ParseAuthority(None, rest[2..], None, query, fragment)
    else Some(UrlParts(None, None, None, None, rest, query, fragment))
  }

  /** Both pieces of a cut hold only characters of the string cut. */
  lemma CutFirstChars(s: string, c: char)
    ensures forall x :: x in CutFirst(s, c).0 ==> x in s
    ensures CutFirst(s, c).1.Some? ==> forall x :: x in CutFirst(s, c).1.value ==> x in s
  {
    var i := IndexOf(s, c);
    if i < |s| {
      assert forall x :: x in s[i + 1..] ==> x in s;
    }
  }

  /** `parse_url` looking for a port after the first ':' (`tail` is what
      follows it) before it has seen any host: a port that runs to the
      end or to a '/' is read and the host is looked for in front of it,
      failing when there is none; a lone ':' at the end fails; anything
      else reads as no scheme. */
  function ParsePort(rest: string, tail: string, query: Option<string>, fragment: Option<string>): (r: Option<UrlParts>)
    ensures '?' !in rest && '#' !in rest && r.Some? ==>
            Sound(r.value) && r.value.scheme.None? && r.value.query == query && r.value.fragment == fragment
  {
    var atEnd := query.None? && fragment.None?;
    var d := DigitRun(tail);
    if PortFollows(tail, atEnd) then
      if DigitsValue(d) <= 65535 then
        ParseAuthority(None, if "//" <= rest then rest[2..] else rest, Some(d), query, fragment)
      else None
    else if tail == [] && atEnd then None
    else NoScheme(rest, query, fragment)
  }

  /** After a scheme name and its ':' (`tail` is what follows): a port
      read before any host, an authority after "//", or else a path. */
  function AfterScheme(rest: string, scheme: string, tail: string, query: Option<string>, fragment: Option<string>): (r: Option<UrlParts>)
    ensures '?' !in rest && '#' !in rest && '?' !in tail && '#' !in tail && r.Some? ==>
            Sound(r.value) && r.value.query == query && r.value.fragment == fragment
    ensures r.Some? && r.value.scheme.Some? ==> r.value.scheme.value == scheme
  {
    if PortFollows(tail, query.None? && fragment.None?) then ParsePort(rest, tail, query, fragment)
    else if "//" <= tail then ParseAuthority(Some(scheme), tail[2..], None, query, fragment)
    else Some(UrlParts(Some(scheme), None, None, None, tail, query, fragment))
  }

  /** Parses what is left once query and fragment are cut off. Before the
      first ':' stands a scheme when it is a run of scheme characters,
      unless a port follows the ':' (`a.com:80/x`). A ':' after anything
      else, or at the start, sends the parse looking for a port. Without a
      ':' there is no scheme. */
  function ParseRest(rest: string, query: Option<string>, fragment: Option<string>): (r: Option<UrlParts>)
    ensures '?' !in rest && '#' !in rest && r.Some? ==>
            Sound(r.value) && r.value.query == query && r.value.fragment == fragment
    ensures r.Some? && r.value.scheme.Some? ==> IsSchemeName(r.value.scheme.value)
  {
    var atEnd := query.None? && fragment.None?;
    CutFirstChars(rest, ':');
    var (scheme, after) := CutFirst(rest, ':');
    if after.None? then NoScheme(rest, query, fragment)
    else if IsSchemeName(scheme) then AfterScheme(rest, scheme, after.value, query, fragment)
    else if scheme == [] || !(after.value == [] && atEnd) then ParsePort(rest, after.value, query, fragment)
    else NoScheme(rest, query, fragment)
  }

  /** A model of PHP's `parse_url`: the fragment follows the first '#',
      the query the first '?' before it. */
  function ParseUrl(u: string): (r: Option<UrlParts>)
    ensures r.Some? ==> Sound(r.value) && (r.value.fragment.Some? <==> '#' in u)
    ensures r.Some? && r.value.scheme.Some? ==> IsSchemeName(r.value.scheme.value)
  {
    var (body, fragment) := CutFirst(u, '#');
    var (rest, query) := CutFirst(body, '?');
    ParseRest(rest, query, fragment)
  }

  /** Neither the host nor the path of a parse holds '?' or '#': those
      start the query and the fragment. The host holds no '/' and is not
      empty. */
  predicate Sound(p: UrlParts) {
    && '?' !in p.path && '#' !in p.path
    && (p.host.Some? ==> p.host.value != [] && '/' !in p.host.value
                         && '?' !in p.host.value && '#' !in p.host.value)
  }

  // ---------------------------------------------------------------------
  // fgp_clean_image_url

  /** `scheme . '://' . host . path` of the parsed URL; a component that is
      missing reads as "", and a failed parse leaves only "://". */
  function Clean(u: string): (r: string)
    ensures '?' !in r && '#' !in r
  {
    match ParseUrl(u)
    case None => "://"
    case Some(p) =>
      JoinedNoQuery(p);
      p.scheme.GetOr("") + "://" + p.host.GetOr("") + p.path
  }

  /** The joined parts of a sound parse hold neither '?' nor '#'. */
  lemma JoinedNoQuery(p: UrlParts)
    requires Sound(p) && (p.scheme.Some? ==> IsSchemeName(p.scheme.value))
    ensures var r := p.scheme.GetOr("") + "://" + p.host.GetOr("") + p.path;
            '?' !in r && '#' !in r
  {
    var scheme := p.scheme.GetOr("");
    var host := p.host.GetOr("");
    assert forall x :: x in scheme ==> IsSchemeChar(x);
    assert '?' !in host && '#' !in host;
  }

  // ---------------------------------------------------------------------
  // The absolute URLs a media host hands out, and their textual form

  /** The components of an absolute URL that `Format` writes out and
      `ParseUrl` reads back unchanged. */
  predicate Absolute(p: UrlParts) {
    && p.scheme.Some? && IsSchemeName(p.scheme.value)
    && p.host.Some? && p.host.value != []
    && '/' !in p.host.value && '?' !in p.host.value && '#' !in p.host.value
    && '@' !in p.host.value && ':' !in p.host.value
    && (p.user.Some? ==> '/' !in p.user.value && '?' !in p.user.value
                         && '#' !in p.user.value && '@' !in p.user.value)
    && (p.port.Some? ==> p.port.value != [] && |p.port.value| <= 5 && AllDigits(p.port.value)
                         && DigitsValue(p.port.value) <= 65535)
    && (p.path == [] || p.path[0] == '/')
    && '?' !in p.path && '#' !in p.path
    && (p.query.Some? ==> '#' !in p.query.value)
  }

  /** `[c] + tail` when the tail is present, "" otherwise. */
  function Tagged(c: char, tail: Option<string>): string {
    if tail.Some? then [c] + tail.value else ""
  }

  function UserPart(p: UrlParts): string {
    if p.user.Some? then p.user.value + "@" else ""
  }

  /** What follows "//": user part, host, port and path. */
  function AuthorityAndPath(p: UrlParts): string
    requires p.host.Some?
  {
    UserPart(p) + p.host.value + Tagged(':', p.port) + p.path
  }

  /** The textual form of an absolute URL. */
  function Format(p: UrlParts): string
    requires p.scheme.Some? && p.host.Some?
  {
    p.scheme.value + "://" + AuthorityAndPath(p) + Tagged('?', p.query) + Tagged('#', p.fragment)
  }

  lemma {:induction false} IndexOfAfter(a: string, b: string, c: char)
    requires c !in a
    ensures IndexOf(a + b, c) == |a| + IndexOf(b, c)
  {
    if a != [] {
      assert (a + b)[1..] == a[1..] + b;
      IndexOfAfter(a[1..], b, c);
    } else {
      assert a + b == b;
    }
  }

  lemma CutFirstTagged(a: string, c: char, tail: Option<string>)
    requires c !in a
    ensures CutFirst(a + Tagged(c, tail), c) == (a, tail)
  {
    var s := a + Tagged(c, tail);
    IndexOfAfter(a, Tagged(c, tail), c);
    if tail.Some? {
      assert Tagged(c, tail)[0] == c;
      assert IndexOf(Tagged(c, tail), c) == 0;
      assert s[..|a|] == a;
      assert s[|a| + 1..] == tail.value;
    } else {
      assert s == a;
    }
  }

  lemma {:induction false} LastIndexOfAt(a: string, c: char, b: string)
    requires c !in b
    ensures LastIndexOf(a + [c] + b, c) == |a|
    decreases |b|
  {
    var s := a + [c] + b;
    if b == [] {
      assert s == a + [c];
    } else {
      var init := b[..|b| - 1];
      assert s[..|s| - 1] == a + [c] + init;
      assert s[|s| - 1] == b[|b| - 1];
      assert c !in init by {
        assert forall k :: 0 <= k < |init| ==> init[k] == b[k];
      }
      LastIndexOfAt(a, c, init);
    }
  }

  lemma CutLastTagged(a: string, c: char, tail: Option<string>)
    requires tail.Some? ==> c !in tail.value
    requires tail.None? ==> c !in a
    ensures CutLast(a + Tagged(c, tail), c) == (a, tail)
  {
    var s := a + Tagged(c, tail);
    if tail.Some? {
      assert s == a + [c] + tail.value;
      LastIndexOfAt(a, c, tail.value);
      assert s[..|a|] == a;
      assert s[|a| + 1..] == tail.value;
    } else {
      assert s == a;
    }
  }

  function HostPort(p: UrlParts): string
    requires p.host.Some?
  {
    p.host.value + Tagged(':', p.port)
  }

  /** The authority ends where the path begins. */
  lemma SplitPathFormat(p: UrlParts)
    requires Absolute(p)
    ensures SplitPath(AuthorityAndPath(p)) == (UserPart(p) + HostPort(p), p.path)
  {
    var authority := UserPart(p) + HostPort(p);
    var a := authority + p.path;
    assert AuthorityAndPath(p) == a;
    assert '/' !in authority;
    IndexOfAfter(authority, p.path, '/');
    assert a[..|authority|] == authority && a[|authority|..] == p.path;
  }

  /** The user part ends at the last '@'. */
  lemma SplitUserFormat(p: UrlParts)
    requires Absolute(p)
    ensures SplitUser(UserPart(p) + HostPort(p)) == (p.user, HostPort(p))
  {
    var hostPort := HostPort(p);
    assert '@' !in hostPort;
    if p.user.Some? {
      assert UserPart(p) + hostPort == p.user.value + Tagged('@', Some(hostPort));
      CutLastTagged(p.user.value, '@', Some(hostPort));
    } else {
      assert UserPart(p) + hostPort == hostPort + Tagged('@', None);
      CutLastTagged(hostPort, '@', None);
    }
  }

  /** The port follows the last ':'. */
  lemma SplitPortFormat(p: UrlParts)
    requires Absolute(p)
    ensures SplitPort(HostPort(p)) == (p.host.value, p.port)
  {
    if p.port.Some? {
      assert ':' !in p.port.value by {
        assert forall i :: 0 <= i < |p.port.value| ==> IsDigit(p.port.value[i]);
      }
    }
    CutLastTagged(p.host.value, ':', p.port);
  }

  /** The authority and path of an absolute URL are read back as written. */
  lemma ParseAuthorityFormat(p: UrlParts)
    requires Absolute(p)
    ensures ParseAuthority(p.scheme, AuthorityAndPath(p), None, p.query, p.fragment) == Some(p)
  {
    SplitPathFormat(p);
    SplitUserFormat(p);
    SplitPortFormat(p);
    if p.port.Some? {
      DigitPortAccepted(p.port.value);
    }
  }

  /** One to five digits denoting at most 65535 make a port `parse_url`
      accepts. */
  lemma DigitPortAccepted(port: string)
    requires port != [] && |port| <= 5 && AllDigits(port) && DigitsValue(port) <= 65535
    ensures PortAccepted(port)
  {
    StrtolDigits(port);
  }

  /** `strtol` reads a string of digits as the number it denotes. */
  lemma StrtolDigits(s: string)
    requires s != [] && AllDigits(s)
    ensures Strtol(s) == Some(DigitsValue(s))
  {
    assert !IsCSpace(s[0]);
    assert SkipSpace(s) == s;
    DigitRunAll(s);
  }

  lemma {:induction false} DigitRunAll(s: string)
    requires AllDigits(s)
    ensures DigitRun(s) == s
  {
    if s != [] {
      DigitRunAll(s[1..]);
      assert s == [s[0]] + s[1..];
    }
  }

  /** A scheme name followed by "://" hands the rest to the authority
      parser. */
  lemma ParseRestScheme(scheme: string, a: string, query: Option<string>, fragment: Option<string>)
    requires IsSchemeName(scheme)
    ensures ParseRest(scheme + "://" + a, query, fragment) == ParseAuthority(Some(scheme), a, None, query, fragment)
  {
    assert ':' !in scheme by {
      assert forall i :: 0 <= i < |scheme| ==> IsSchemeChar(scheme[i]);
    }
    assert scheme + "://" + a == scheme + Tagged(':', Some("//" + a));
    CutFirstTagged(scheme, ':', Some("//" + a));
    assert DigitRun("//" + a) == [];
    assert ("//" + a)[2..] == a;
  }

  /** Parsing the textual form of an absolute URL gives its components
      back. */
  lemma ParseFormat(p: UrlParts)
    requires Absolute(p)
    ensures ParseUrl(Format(p)) == Some(p)
  {
    var scheme := p.scheme.value;
    var a := AuthorityAndPath(p);
    var rest := scheme + "://" + a;
    var body := rest + Tagged('?', p.query);
    assert Format(p) == body + Tagged('#', p.fragment);
    assert '#' !in body && '?' !in rest;
    CutFirstTagged(body, '#', p.fragment);
    CutFirstTagged(rest, '?', p.query);
    assert ParseUrl(Format(p)) == ParseRest(rest, p.query, p.fragment);
    ParseRestScheme(scheme, a, p.query, p.fragment);
    ParseAuthorityFormat(p);
  }

  /** Cleaning an absolute URL keeps exactly its scheme, host and path:
      the user part, the port, the query and the fragment are dropped. */
  lemma CleanFormat(p: UrlParts)
    requires Absolute(p)
    ensures Clean(Format(p)) == p.scheme.value + "://" + p.host.value + p.path
  {
    ParseFormat(p);
  }

  /** The URL with only scheme, host and path. */
  function Bare(p: UrlParts): UrlParts {
    UrlParts(p.scheme, None, p.host, None, p.path, None, None)
  }

  /** The textual form of the bare URL is the cleaned string. */
  lemma FormatBare(p: UrlParts)
    requires p.scheme.Some? && p.host.Some?
    ensures Format(Bare(p)) == p.scheme.value + "://" + p.host.value + p.path
  {
    var bare := Bare(p);
    var e: string := [];
    var head := p.scheme.value + "://";
    assert AuthorityAndPath(bare) == e + p.host.value + e + p.path;
    assert e + p.host.value + e == p.host.value;
    assert Format(bare) == head + AuthorityAndPath(bare) + e + e;
    assert head + (p.host.value + p.path) == head + p.host.value + p.path;
  }

  /** Cleaning an absolute URL a second time changes nothing. */
  lemma CleanIdempotent(p: UrlParts)
    requires Absolute(p)
    ensures Clean(Clean(Format(p))) == Clean(Format(p))
  {
    CleanFormat(p);
    FormatBare(p);
    CleanFormat(Bare(p));
  }

  /** A string with no '#', '?' or ':' that does not start with "//" is
      read as a bare path, so cleaning only puts "://" in front of it. */
  lemma CleanBarePath(u: string)
    requires '#' !in u && '?' !in u && ':' !in u && !("//" <= u)
    ensures Clean(u) == "://" + u
  {
    CutFirstTagged(u, '#', None);
    CutFirstTagged(u, '?', None);
    CutFirstTagged(u, ':', None);
    assert ParseRest(u, None, None) == NoScheme(u, None, None);
    assert ParseUrl(u) == Some(UrlParts(None, None, None, None, u, None, None));
  }

  /** A string that starts with ":/" has no scheme, no port and no host
      either: no port follows the ':'. */
  lemma CleanLeadingColon(u: string)
    requires '#' !in u && '?' !in u && |u| >= 2 && u[0] == ':' && u[1] == '/'
    ensures Clean(u) == "://" + u
  {
    ParseLeadingColon(u);
    assert Clean(u) == "" + "://" + "" + u;
  }

  /** The parse behind `CleanLeadingColon`: an empty scheme name is no
      scheme, and ':' is not '/', so all of `u` is the path. */
  lemma ParseLeadingColon(u: string)
    requires '#' !in u && '?' !in u && |u| >= 2 && u[0] == ':' && u[1] == '/'
    ensures ParseUrl(u) == Some(UrlParts(None, None, None, None, u, None, None))
  {
    CutFirstTagged(u, '#', None);
    CutFirstTagged(u, '?', None);
    assert u == [] + Tagged(':', Some(u[1..]));
    CutFirstTagged([], ':', Some(u[1..]));
    assert !("//" <= u) by {
      assert u[0] != '/';
    }
    assert DigitRun(u[1..]) == [];
    assert ParsePort(u, u[1..], None, None) == NoScheme(u, None, None);
    assert ParseRest(u, None, None) == Some(UrlParts(None, None, None, None, u, None, None));
  }

  /** A bare path is where idempotence ends: cleaning prefixes "://", and
      cleaning again prefixes it once more. */
  lemma CleanBarePathNotIdempotent(u: string)
    requires '#' !in u && '?' !in u && ':' !in u && !("//" <= u)
    ensures Clean(u) == "://" + u
    ensures Clean(Clean(u)) == "://" + Clean(u) != Clean(u)
  {
    CleanBarePath(u);
    CleanLeadingColon("://" + u);
    assert |"://" + Clean(u)| > |Clean(u)|;
  }

  // ---------------------------------------------------------------------
  // Ports

  /** The digit run of `d + rest` is `d` when `rest` does not go on with a
      digit. */
  lemma {:induction false} DigitRunStops(d: string, rest: string)
    requires AllDigits(d) && (rest == [] || !IsDigit(rest[0]))
    ensures DigitRun(d + rest) == d
  {
    if d != [] {
      assert (d + rest)[1..] == d[1..] + rest;
      DigitRunStops(d[1..], rest);
    }
  }

  /** A URL without '?' and '#' is parsed whole by `ParseRest`. */
  lemma ParsePlain(u: string)
    requires '?' !in u && '#' !in u
    ensures ParseUrl(u) == ParseRest(u, None, None)
  {
    CutFirstTagged(u, '#', None);
    CutFirstTagged(u, '?', None);
  }

  /** Scheme characters include none of the delimiters. */
  lemma SchemeNameDelimiters(scheme: string)
    requires forall i :: 0 <= i < |scheme| ==> IsSchemeChar(scheme[i])
    ensures '?' !in scheme && '#' !in scheme && '/' !in scheme && ':' !in scheme && '@' !in scheme
  {
    assert forall x :: x in scheme ==> IsSchemeChar(x);
  }

  /** How `host:port` followed by a path is split: the path starts at the
      first '/', there is no user part, and the port follows the ':'. */
  lemma SplitHostPort(host: string, port: string, path: string)
    requires '/' !in host && '@' !in host && ':' !in host
    requires '/' !in port && '@' !in port && ':' !in port
    requires path == [] || path[0] == '/'
    ensures SplitPath(host + ":" + port + path) == (host + ":" + port, path)
    ensures SplitUser(host + ":" + port) == (None, host + ":" + port)
    ensures SplitPort(host + ":" + port) == (host, if port == [] then None else Some(port))
  {
    var hostPort := host + ":" + port;
    var a := hostPort + path;
    assert '/' !in hostPort;
    IndexOfAfter(hostPort, path, '/');
    if path != [] {
      assert IndexOf(path, '/') == 0;
    }
    assert a[..|hostPort|] == hostPort && a[|hostPort|..] == path;
    assert hostPort == hostPort + Tagged('@', None);
    CutLastTagged(hostPort, '@', None);
    assert hostPort == host + Tagged(':', Some(port));
    CutLastTagged(host, ':', Some(port));
  }

  /** A port text after a host is read with `strtol` and is at most five
      characters: an accepted one, or none at all, is dropped by cleaning;
      any other makes `parse_url` fail, and cleaning gives "://". */
  lemma CleanHostPort(scheme: string, host: string, port: string, path: string)
    requires IsSchemeName(scheme)
    requires host != [] && '/' !in host && '?' !in host && '#' !in host && '@' !in host && ':' !in host
    requires '/' !in port && '?' !in port && '#' !in port && '@' !in port && ':' !in port
    requires (path == [] || path[0] == '/') && '?' !in path && '#' !in path
    ensures Clean(scheme + "://" + host + ":" + port + path)
            == if port == [] || PortAccepted(port) then scheme + "://" + host + path else "://"
  {
    var a := host + ":" + port + path;
    var u := scheme + "://" + a;
    assert scheme + "://" + host + ":" + port + path == u;
    SchemeNameDelimiters(scheme);
    ParsePlain(u);
    ParseRestScheme(scheme, a, None, None);
    SplitHostPort(host, port, path);
  }

  /** `"http://h:8a/x.jpg"`: `strtol` reads the port 8 and ignores the
      rest, so the URL is cleaned like any other. */
  lemma PortWithTrailingLetters(u: string)
    requires u == "http://h:8a/x.jpg"
    ensures Clean(u) == "http://h/x.jpg"
  {
    var port := "8a";
    HostPortPieces(u, port, "http://h:8a/x.jpg");
    assert port == ['8'] + "a";
    StrtolTrailingLetters('8', "a");
    CleanHostPort("http", "h", port, "/x.jpg");
  }

  /** `strtol` reads a digit followed by a non-digit as that digit. */
  lemma StrtolTrailingLetters(c: char, rest: string)
    requires IsDigit(c) && |rest| <= 4 && (rest == [] || !IsDigit(rest[0]))
    ensures Strtol([c] + rest) == Some(c as int - '0' as int)
    ensures PortAccepted([c] + rest)
  {
    var s := [c] + rest;
    assert s[0] == c && !IsCSpace(c) && c != '+' && c != '-';
    assert SkipSpace(s) == s;
    DigitRunStops([c], rest);
    assert DigitRun(s) == [c];
    assert DigitsValue([c]) == c as int - '0' as int by {
      assert [c][..0] == [];
    }
  }

  /** `"http://h:000080/x.jpg"`: six port characters are too many, and
      cleaning gives "://". */
  lemma PortTooLong(u: string)
    requires u == "http://h:000080/x.jpg"
    ensures Clean(u) == "://"
  {
    var port := "000080";
    HostPortPieces(u, port, "http://h:000080/x.jpg");
    assert !PortAccepted(port);
    CleanHostPort("http", "h", port, "/x.jpg");
  }

  /** The pieces of the two example URLs with host `h`. */
  lemma HostPortPieces(u: string, port: string, lit: string)
    requires (port == "8a" && lit == "http://h:8a/x.jpg") || (port == "000080" && lit == "http://h:000080/x.jpg")
    requires u == lit
    ensures u == "http" + "://" + "h" + ":" + port + "/x.jpg"
    ensures "http" + "://" + "h" + "/x.jpg" == "http://h/x.jpg"
  {
  }

  /** The parse of a relative path with a port-like segment. */
  lemma ParseRelativePortPath(pre: string, digits: string, post: string)
    requires |pre| >= 2 && pre[0] == '/' && pre[1] != '/'
    requires ':' !in pre
    requires 0 < |digits| <= 5 && AllDigits(digits)
    ensures ParseRest(pre + ":" + digits + "/" + post, None, None) == None
  {
    var c := "/" + post;
    var tail := digits + c;
    var u := pre + ":" + digits + c;
    assert pre + ":" + digits + "/" + post == u;
    CutAtColon(pre, digits, c);
    assert !IsSchemeName(pre) by {
      assert !IsSchemeChar(pre[0]);
    }
    ParseRestPortCase(u, pre, tail, None, None);
    DigitRunStops(digits, c);
    assert PortFollows(tail, true) by {
      assert tail[|digits|] == '/';
    }
    assert !("//" <= u) by {
      assert u[1] == pre[1];
    }
    ParsePortRead(u, tail, None, None);
    assert IndexOf(u, '/') == 0 by {
      assert u[0] == '/';
    }
  }

  /** A relative path whose first ':' is followed by one to five digits
      and a '/' is read as a port with an empty host in front of it, so
      `parse_url` fails and cleaning gives "://". */
  lemma CleanRelativePortPath(pre: string, digits: string, post: string)
    requires |pre| >= 2 && pre[0] == '/' && pre[1] != '/'
    requires ':' !in pre && '?' !in pre && '#' !in pre
    requires 0 < |digits| <= 5 && AllDigits(digits)
    requires '?' !in post && '#' !in post
    ensures Clean(pre + ":" + digits + "/" + post) == "://"
  {
    assert '?' !in digits && '#' !in digits by {
      assert forall x :: x in digits ==> IsDigit(x);
    }
    ParsePlain(pre + ":" + digits + "/" + post);
    ParseRelativePortPath(pre, digits, post);
  }

  /** `"/p/a:80/x.jpg"` cleans to "://". */
  lemma RelativePortPathExample(u: string)
    requires u == "/p/a:80/x.jpg"
    ensures Clean(u) == "://"
  {
    RelativePortPathPieces(u);
    CleanRelativePortPath("/p/a", "80", "x.jpg");
  }

  lemma RelativePortPathPieces(u: string)
    requires u == "/p/a:80/x.jpg"
    ensures u == "/p/a" + ":" + "80" + "/" + "x.jpg"
  {
  }

  /** The first ':' of `a + ":" + b + c` is the one after `a`. */
  lemma CutAtColon(a: string, b: string, c: string)
    requires ':' !in a
    ensures CutFirst(a + ":" + b + c, ':') == (a, Some(b + c))
  {
    assert a + ":" + b + c == a + Tagged(':', Some(b + c));
    CutFirstTagged(a, ':', Some(b + c));
  }

  /** A ':' with a port after it, or one that does not follow a scheme
      name, sends `ParseRest` to `ParsePort`. */
  lemma ParseRestPortCase(rest: string, before: string, tail: string, query: Option<string>, fragment: Option<string>)
    requires CutFirst(rest, ':') == (before, Some(tail))
    requires || (IsSchemeName(before) && PortFollows(tail, query.None? && fragment.None?))
             || (!IsSchemeName(before) && (before == [] || tail != []))
    ensures ParseRest(rest, query, fragment) == ParsePort(rest, tail, query, fragment)
  {
  }

  /** A port that `ParsePort` reads, before a URL without "//". */
  lemma ParsePortRead(rest: string, tail: string, query: Option<string>, fragment: Option<string>)
    requires PortFollows(tail, query.None? && fragment.None?) && !("//" <= rest)
    ensures var d := DigitRun(tail);
            ParsePort(rest, tail, query, fragment)
            == if DigitsValue(d) <= 65535 then ParseAuthority(None, rest, Some(d), query, fragment) else None
  {
  }

  /** The parse of `host:port` without a scheme. */
  lemma ParseSchemelessHostPort(host: string, digits: string, path: string)
    requires IsSchemeName(host)
    requires 0 < |digits| <= 5 && AllDigits(digits) && DigitsValue(digits) <= 65535
    requires path == [] || path[0] == '/'
    ensures ParseRest(host + ":" + digits + path, None, None)
            == Some(UrlParts(None, None, Some(host), Some(digits), path, None, None))
  {
    var tail := digits + path;
    var u := host + ":" + digits + path;
    SchemeNameDelimiters(host);
    CutAtColon(host, digits, path);
    assert ':' !in digits && '/' !in digits && '@' !in digits by {
      assert forall x :: x in digits ==> IsDigit(x);
    }
    DigitRunStops(digits, path);
    assert PortFollows(tail, true);
    ParseRestPortCase(u, host, tail, None, None);
    assert !("//" <= u) by {
      assert u[0] == host[0] && IsSchemeChar(host[0]);
    }
    ParsePortRead(u, tail, None, None);
    SplitHostPort(host, digits, path);
  }

  /** Without a scheme, `host:port` followed by the end or a path is read
      as a host and a port, so cleaning keeps the host and the path. */
  lemma CleanSchemelessHostPort(host: string, digits: string, path: string)
    requires IsSchemeName(host)
    requires 0 < |digits| <= 5 && AllDigits(digits) && DigitsValue(digits) <= 65535
    requires (path == [] || path[0] == '/') && '?' !in path && '#' !in path
    ensures Clean(host + ":" + digits + path) == "://" + host + path
  {
    SchemeNameDelimiters(host);
    assert '?' !in digits && '#' !in digits by {
      assert forall x :: x in digits ==> IsDigit(x);
    }
    ParsePlain(host + ":" + digits + path);
    ParseSchemelessHostPort(host, digits, path);
    var none: string := [];
    assert none + "://" == "://";
    assert Clean(host + ":" + digits + path) == none + "://" + host + path;
  }

  /** The parse of ':' at the start, with or without a port. */
  lemma ParseColonPort(digits: string, path: string)
    requires |digits| <= 5 && AllDigits(digits)
    requires path == [] || (digits != [] && path[0] == '/')
    ensures ParseRest(":" + digits + path, None, None) == None
  {
    var tail := digits + path;
    var u := ":" + tail;
    assert ":" + digits + path == u;
    var none: string := [];
    assert u == none + Tagged(':', Some(tail));
    CutFirstTagged(none, ':', Some(tail));
    ParseRestPortCase(u, none, tail, None, None);
    if digits != [] {
      DigitRunStops(digits, path);
      assert PortFollows(tail, true);
      assert u[0] == ':';
      ParsePortRead(u, tail, None, None);
      assert ParseAuthority(None, u, Some(digits), None, None) == None by {
        assert ':' !in digits && '/' !in digits && '@' !in digits by {
          assert forall x :: x in digits ==> IsDigit(x);
        }
        var none: string := [];
        SplitHostPort(none, digits, path);
        assert none + ":" == ":";
        assert none + ":" + digits + path == u;
      }
    }
  }

  /** A ':' at the start followed by nothing, or by one to five digits
      and then the end or a path, is a port with no host: `parse_url`
      fails and cleaning gives "://". */
  lemma CleanColonPort(digits: string, path: string)
    requires |digits| <= 5 && AllDigits(digits)
    requires (path == [] || (digits != [] && path[0] == '/')) && '?' !in path && '#' !in path
    ensures Clean(":" + digits + path) == "://"
  {
    assert '?' !in digits && '#' !in digits by {
      assert forall x :: x in digits ==> IsDigit(x);
    }
    ParsePlain(":" + digits + path);
    ParseColonPort(digits, path);
  }

  // ---------------------------------------------------------------------
  // fgp_is_valid_image_url

  /** What `wp_remote_head` returns: a transport error, or a status code
      with the content-type header ("" when the header is missing). */
  datatype HeadResponse = HeadError(message: string) | HeadReply(status: int, contentType: string)

  /** The image check's decision on the HEAD response. */
  function IsValidImage(r: HeadResponse): (valid: bool)
    ensures valid <==> r.HeadReply? && r.status == 200
                       && exists i: nat :: OccursAt(r.contentType, "image/jpeg", i)
  {
    match r
    case HeadError(_) => false
    case HeadReply(status, contentType) => status == 200 && Contains(contentType, "image/jpeg")
  }
}
