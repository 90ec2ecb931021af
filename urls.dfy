/** The part of `java.net.URL` the proxy relies on: parsing a string into
    protocol, authority, user info, host, port, path, query and reference
    (`new URL(spec)`), the string form (`toExternalForm`) and the default
    port of a protocol. */
module Urls {
  import opened Common

  datatype Url = Url(
    protocol: string,
    authority: Option<string>,
    userInfo: Option<string>,
    host: string,
    port: int,
    path: string,
    query: Option<string>,
    ref: Option<string>)

  /** The ways `new URL(spec)` fails with MalformedURLException. */
  datatype MalformedUrl = NoProtocol | UnknownProtocol(protocol: string) | InvalidPort

  /** The protocols with a built-in stream handler that the model covers. */
  const KnownProtocols: set<string> := {"http", "https", "ftp", "file"}

  predicate IsAsciiLetter(c: char) {
    ('a' <= c <= 'z') || ('A' <= c <= 'Z')
  }

  predicate IsSchemeChar(c: char) {
    IsAsciiLetter(c) || IsDigitChar(c) || c == '+' || c == '-' || c == '.'
  }

  /** `URL.isValidProtocol`: a letter, then letters, digits, `+`, `-` or `.`. */
  predicate IsValidProtocol(s: string) {
    s != [] && IsAsciiLetter(s[0]) && forall i :: 0 <= i < |s| ==> IsSchemeChar(s[i])
  }

  function LowerChar(c: char): char {
    if 'A' <= c <= 'Z' then (c as int + 32) as char else c
  }

  /** `toLowerCase` on the ASCII letters a protocol consists of. */
  function Lower(s: string): (r: string)
    ensures |r| == |s|
    ensures forall i :: 0 <= i < |s| ==> r[i] == LowerChar(s[i])
  {
    if s == [] then [] else Lower(s[..|s| - 1]) + [LowerChar(s[|s| - 1])]
  }

  predicate IsLower(s: string) {
    forall i :: 0 <= i < |s| ==> !('A' <= s[i] <= 'Z')
  }

  /** `URL.getDefaultPort()`. */
  function DefaultPort(protocol: string): int {
    if protocol == "http" then 80
    else if protocol == "https" then 443
    else if protocol == "ftp" then 21
    else -1
  }

  /** `Integer.parseInt` of a port string: an optional sign, then decimal digits,
      within the 32-bit range; None where Java throws NumberFormatException. */
  function ParseInt(s: string): (r: Option<int>)
    ensures r.Some? ==> IsInt32(r.value)
    ensures AllDigitChars(s) && s != [] && DecimalValue(s) < 0x8000_0000 ==> r == Some(DecimalValue(s))
  {
    if s != [] && (s[0] == '-' || s[0] == '+') && |s| > 1 && AllDigitChars(s[1..]) then
      var n: int := DecimalValue(s[1..]);
      var v := if s[0] == '-' then -n else n;
      if IsInt32(v) then Some(v) else None
    else if s != [] && AllDigitChars(s) && DecimalValue(s) < 0x8000_0000 then Some(DecimalValue(s))
    else None
  }

  /** `s` cut at its first `c`: what comes before, and what comes after if there is a `c`. */
  datatype Cut = Cut(before: string, after: Option<string>)

  function CutAt(s: string, c: char): (r: Cut)
    ensures c !in r.before
    ensures r.after.Some? <==> c in s
    ensures r.after.Some? ==> s == r.before + [c] + r.after.value
    ensures r.after.None? ==> s == r.before
  {
    var i := IndexOfFrom(s, c, 0);
    if i == -1 then Cut(s, None)
    else
      assert s == s[..i] + [c] + s[i + 1..];
      Cut(s[..i], Some(s[i + 1..]))
  }

  /** `CutAt` read back: the string is the part before, the separator and the part after. */
  lemma CutJoin(s: string, c: char)
    ensures var r := CutAt(s, c);
            s == r.before + (if r.after.Some? then [c] + r.after.value else [])
  {
    var r := CutAt(s, c);
    if r.after.Some? {
      ConcatAssoc(r.before, [c], r.after.value);
    }
  }

  /** The hierarchical part after the protocol: an authority after `//`, up to the next `/`, then the path. */
  datatype Hier = Hier(authority: Option<string>, path: string)

  function SplitHier(main: string): (r: Hier)
    ensures r.authority.Some? ==> '/' !in r.authority.value
    ensures r.authority.Some? ==> r.path == [] || r.path[0] == '/'
    ensures r.authority.Some? ==> main == "//" + r.authority.value + r.path
    ensures r.authority.None? ==> main == r.path
  {
    if |main| >= 2 && main[..2] == "//" then SplitAuthorityPath(main) else Hier(None, main)
  }

  /** `SplitHier` of a string that starts with `//`. */
  function SplitAuthorityPath(main: string): (r: Hier)
    requires |main| >= 2 && main[..2] == "//"
    ensures r.authority.Some? && '/' !in r.authority.value
    ensures r.path == [] || r.path[0] == '/'
    ensures main == "//" + r.authority.value + r.path
  {
    var c := CutAt(main[2..], '/');
    var path := if c.after.Some? then "/" + c.after.value else "";
    SlashesJoin(main, c.before, path);
    Hier(Some(c.before), path)
  }

  lemma SlashesJoin(main: string, authority: string, path: string)
    requires |main| >= 2 && main[..2] == "//" && main[2..] == authority + path
    ensures main == "//" + authority + path
  {
    assert main == main[..2] + main[2..];
    ConcatAssoc("//", authority, path);
  }

  lemma ConcatAssoc(a: string, b: string, c: string)
    ensures a + b + c == a + (b + c)
  {
  }

  /** The host and port part of an authority, after the user info. */
  datatype HostPort = HostPort(userInfo: Option<string>, host: string, port: int)

  /** How `URLStreamHandler.parseURL` splits an authority: user info up to a
      single `@` (two or more `@` leave neither user info nor host), then the host
      up to the first `:`, then the port if anything follows the `:`. */
  function SplitAuthority(authority: string): (r: Result<HostPort, MalformedUrl>)
    ensures r.Ok? ==> r.value.port >= -1
    ensures r.Ok? && r.value.userInfo.Some? ==> '@' !in r.value.userInfo.value && '@' in authority
    ensures r.Ok? ==> ':' !in r.value.host
  {
    var at := IndexOfFrom(authority, '@', 0);
    if at != -1 && at != LastIndexOf(authority, '@') then Ok(HostPort(None, "", -1))
    else
      var userInfo := if at == -1 then None else Some(authority[..at]);
      var hostPort := if at == -1 then authority else authority[at + 1..];
      var colon := IndexOfFrom(hostPort, ':', 0);
      if colon == -1 then Ok(HostPort(userInfo, hostPort, -1))
      else if |hostPort| > colon + 1 then
        match ParseInt(hostPort[colon + 1..])
        case None => Err(InvalidPort)
        case Some(p) => if p < -1 then Err(InvalidPort) else Ok(HostPort(userInfo, hostPort[..colon], p))
      else Ok(HostPort(userInfo, hostPort[..colon], -1))
  }

  /** `new URL(spec)` without a context URL: trim, take the protocol before the
      first `:`, the reference after the first `#`, the query after the first `?`,
      then the authority and the path. */
  function ParseUrl(spec: string): (r: Result<Url, MalformedUrl>)
    ensures r.Ok? ==> r.value.protocol in KnownProtocols
    ensures r.Ok? ==> r.value.port >= -1
    ensures r.Ok? ==> '?' !in r.value.path && '#' !in r.value.path
    ensures ':' !in Trim(spec) ==> r == Err(NoProtocol)
    ensures r.Ok? ==> r.value.protocol == Lower(CutAt(Trim(spec), ':').before)
  {
    ParseTrimmed(Trim(spec))
  }

  /** The cuts `ParseUrl` makes, in order: the protocol at the first `:`, the
      reference at the first `#` after it, the query at the first `?` before
      that, then the authority and the path. */
  datatype Cuts = Cuts(protocol: Cut, ref: Cut, query: Cut, hier: Hier)

  function CutsOf(s: string): Cuts {
    var p := CutAt(s, ':');
    var f := CutAt(if p.after.Some? then p.after.value else "", '#');
    var q := CutAt(f.before, '?');
    Cuts(p, f, q, SplitHier(q.before))
  }

  /** `ParseUrl` after the surrounding white space is gone. */
  function ParseTrimmed(s: string): (r: Result<Url, MalformedUrl>)
    ensures r.Ok? ==> r.value.protocol in KnownProtocols
    ensures r.Ok? ==> r.value.port >= -1
    ensures r.Ok? ==> '?' !in r.value.path && '#' !in r.value.path
  {
    var c := CutsOf(s);
    if c.protocol.after.None? || !IsValidProtocol(c.protocol.before) then Err(NoProtocol)
    else
      var protocol := Lower(c.protocol.before);
      if protocol !in KnownProtocols then Err(UnknownProtocol(protocol))
      else Assemble(protocol, c)
  }

  /** The URL made of a protocol and the remaining cuts, once the protocol is known. */
  function Assemble(protocol: string, c: Cuts): (r: Result<Url, MalformedUrl>)
    ensures r.Ok? ==> r.value.protocol == protocol && r.value.port >= -1
    ensures r.Ok? ==> r.value.authority == c.hier.authority && r.value.path == c.hier.path
    ensures r.Ok? ==> r.value.query == c.query.after && r.value.ref == c.ref.after
  {
    if c.hier.authority.None? then
      Ok(Url(protocol, None, None, "", -1, c.hier.path, c.query.after, c.ref.after))
    else
      match SplitAuthority(c.hier.authority.value)
      case Err(e) => Err(e)
      case Ok(hp) => Ok(Url(protocol, c.hier.authority, hp.userInfo, hp.host, hp.port, c.hier.path, c.query.after, c.ref.after))
  }

  /** `URL.toExternalForm()` (and `toString()`). */
  function Format(u: Url): string {
    u.protocol + ":"
    + (if u.authority.Some? && u.authority.value != [] then "//" + u.authority.value else "")
    + u.path
    + (if u.query.Some? then "?" + u.query.value else "")
    + (if u.ref.Some? then "#" + u.ref.value else "")
  }

  lemma LowerOfLower(s: string)
    requires IsLower(s)
    ensures Lower(s) == s
  {
  }

  /** `Format` is the protocol, a colon and the three nested parts `ParseUrl` cuts. */
  lemma FormatJoin(u: Url, hier: string, withQuery: string, afterColon: string)
    requires u.authority != Some([])
    requires hier == (if u.authority.Some? then "//" + u.authority.value else "") + u.path
    requires withQuery == hier + (if u.query.Some? then "?" + u.query.value else "")
    requires afterColon == withQuery + (if u.ref.Some? then "#" + u.ref.value else "")
    ensures Format(u) == u.protocol + ":" + afterColon
  {
    var auth := if u.authority.Some? then "//" + u.authority.value else "";
    var query := if u.query.Some? then "?" + u.query.value else "";
    var ref := if u.ref.Some? then "#" + u.ref.value else "";
    calc {
      Format(u);
      u.protocol + ":" + auth + u.path + query + ref;
      { ConcatAssoc(u.protocol + ":", auth, u.path); }
      u.protocol + ":" + hier + query + ref;
      { ConcatAssoc(u.protocol + ":", hier, query); }
      u.protocol + ":" + withQuery + ref;
      { ConcatAssoc(u.protocol + ":", withQuery, ref); }
      u.protocol + ":" + afterColon;
    }
  }

  /** A URL string with nothing for `trim` to remove and a lower-case protocol
      reads back to itself, unless it has an empty authority (`http:///x`). */
  lemma FormatParseUrl(spec: string)
    requires Trim(spec) == spec
    requires ParseUrl(spec).Ok?
    requires IsLower(CutAt(spec, ':').before)
    requires ParseUrl(spec).value.authority != Some([])
    ensures Format(ParseUrl(spec).value) == spec
  {
    FormatParseTrimmed(spec);
  }

  lemma FormatParseTrimmed(s: string)
    requires ParseTrimmed(s).Ok?
    requires IsLower(CutAt(s, ':').before)
    requires ParseTrimmed(s).value.authority != Some([])
    ensures Format(ParseTrimmed(s).value) == s
  {
    var c := CutsOf(s);
    LowerOfLower(c.protocol.before);
    assert ParseTrimmed(s) == Assemble(c.protocol.before, c);
    FormatAssemble(s, c);
  }

  /** The URL assembled from the cuts of `s`, under the protocol `s` starts with, formats back to `s`. */
  lemma FormatAssemble(s: string, c: Cuts)
    requires c == CutsOf(s) && c.protocol.after.Some?
    requires Assemble(c.protocol.before, c).Ok?
    requires Assemble(c.protocol.before, c).value.authority != Some([])
    ensures Format(Assemble(c.protocol.before, c).value) == s
  {
    var u := Assemble(c.protocol.before, c).value;
    var hier, withQuery, afterColon := c.query.before, c.ref.before, c.protocol.after.value;
    assert c.protocol == CutAt(s, ':') && c.ref == CutAt(afterColon, '#');
    assert c.query == CutAt(withQuery, '?') && c.hier == SplitHier(hier);
    assert u.protocol == c.protocol.before && u.authority == c.hier.authority && u.path == c.hier.path;
    assert u.query == c.query.after && u.ref == c.ref.after;
    assert hier == (if u.authority.Some? then "//" + u.authority.value else "") + u.path;
    CutJoin(withQuery, '?');
    CutJoin(afterColon, '#');
    FormatJoin(u, hier, withQuery, afterColon);
    assert s == c.protocol.before + ":" + afterColon;
  }
}
