/** The media URL path: a CDN URL taken apart by app/util.go, rebuilt as an
    instance URL, routed by app/router.go and put back together by app/cache.go. */
module MediaUrl {
  import opened Common
  import opened Paths
  import opened Urls

  // ----- taking a CDN URL apart -----

  /** A parsed URL: host, decoded path, and its token, empty if it has none. */
  datatype CdnUrl = CdnUrl(host: string, path: string, token: string)

  const HOST_PREFIX := "images-wixmp-"
  const HOST_SUFFIX := ".wixmp.com"

  datatype Media = Media(subdomain: string, path: string, token: string)

  predicate IsWixmpHost(h: string) {
    HOST_PREFIX <= h && |HOST_SUFFIX| <= |h| && h[|h| - |HOST_SUFFIX|..] == HOST_SUFFIX
  }

  /** The label between prefix and suffix. They cannot overlap: the suffix
      starts with a dot and the prefix has none. */
  function LabelOf(h: string): string
    requires IsWixmpHost(h)
  {
    LabelFits(h);
    h[|HOST_PREFIX|..|h| - |HOST_SUFFIX|]
  }

  lemma LabelFits(h: string)
    requires IsWixmpHost(h)
    ensures |HOST_PREFIX| + |HOST_SUFFIX| <= |h|
  {
    assert forall i :: 0 <= i < |HOST_PREFIX| ==> HOST_PREFIX[i] != '.';
    assert forall i :: 0 <= i < |HOST_PREFIX| ==> h[i] == HOST_PREFIX[i];
    assert h[|h| - |HOST_SUFFIX|] == h[|h| - |HOST_SUFFIX|..][0] == '.';
  }

  function HostOf(subdomain: string): string { HOST_PREFIX + subdomain + HOST_SUFFIX }

  lemma HostLabel(subdomain: string)
    ensures IsWixmpHost(HostOf(subdomain)) && LabelOf(HostOf(subdomain)) == subdomain
  {
    var h := HostOf(subdomain);
    assert h == HOST_PREFIX + (subdomain + HOST_SUFFIX);
    assert h[|h| - |HOST_SUFFIX|..] == HOST_SUFFIX;
  }

  lemma LabelHost(h: string)
    requires IsWixmpHost(h)
    ensures HostOf(LabelOf(h)) == h
  {
    LabelFits(h);
    assert h[..|HOST_PREFIX|] == HOST_PREFIX;
    assert h == h[..|HOST_PREFIX|] + LabelOf(h) + h[|h| - |HOST_SUFFIX|..];
  }

  function TrimSlash(p: string): string { if "/" <= p then p[1..] else p }

  /** wixmpMedia of a URL that parsed. */
  function WixmpMedia(u: CdnUrl): Option<Media> {
    if IsWixmpHost(u.host) then Some(Media(LabelOf(u.host), TrimSlash(u.path), u.token)) else None
  }

  /** Media is what a wixmp host serves: its label, its path without a leading slash,
      and its token. */
  lemma WixmpMediaIff(u: CdnUrl, name: string)
    ensures u.host == "images-wixmp-" + name + ".wixmp.com" <==>
              WixmpMedia(u).Some? && WixmpMedia(u).value.subdomain == name
    ensures WixmpMedia(u).Some? ==>
              && WixmpMedia(u).value.token == u.token
              && WixmpMedia(u).value.path == if u.path != "" && u.path[0] == '/' then u.path[1..] else u.path
  {
    HostLabel(name);
    if IsWixmpHost(u.host) { LabelHost(u.host); }
  }

  // ----- the instance URL -----

  /** An instance URL as built: the text up to the query, and the query's values. */
  datatype InstanceUrl = InstanceUrl(base: string, query: map<string, string>)

  /** What proxiedMediaURL does: nothing for other hosts; and URLBuilder indexes
      the first byte of the label, which panics if the label is empty. */
  datatype Proxied = NotMedia | Panics | Served(url: InstanceUrl)

  function MediaSegments(m: Media): seq<string> { ["media", "file", m.subdomain, m.path] }

  function ProxiedMediaUrl(site: Site, u: CdnUrl, filename: string): Proxied {
    match WixmpMedia(u)
    case None => NotMedia
    case Some(m) =>
      if !Indexable(MediaSegments(m)) then Panics
      else Served(BuiltUrl(site, m, filename))
  }

  function MediaQuery(m: Media, filename: string): map<string, string> {
    (if m.token != "" then map["token" := m.token] else map[])
    + (if filename != "" then map["filename" := filename] else map[])
  }

  function BuiltUrl(site: Site, m: Media, filename: string): InstanceUrl
    requires Indexable(MediaSegments(m))
  {
    InstanceUrl(Url(site, MediaSegments(m)), MediaQuery(m, filename))
  }

  /** The query carries the token and the filename, each if there is one, and nothing else. */
  lemma QueryCarries(m: Media, filename: string)
    ensures var q := MediaQuery(m, filename);
            && (forall k :: k in q ==> k == "token" || k == "filename")
            && ("token" in q <==> m.token != "") && (m.token != "" ==> q["token"] == m.token)
            && ("filename" in q <==> filename != "") && (filename != "" ==> q["filename"] == filename)
  {
    assert "token"[0] != "filename"[0];
  }

  // ----- what the server receives -----

  function Hex(c: char): int {
    if '0' <= c <= '9' then c as int - '0' as int
    else if 'a' <= c <= 'f' then c as int - 'a' as int + 10
    else if 'A' <= c <= 'F' then c as int - 'A' as int + 10
    else -1
  }

  /** Percent-decoding of a path; nothing if an escape is malformed. */
  function PctDecode(s: string): (r: Option<string>)
    ensures r.Some? ==> |r.value| <= |s|
  {
    if s == "" then Some("")
    else if s[0] == '%' then
      if |s| < 3 || Hex(s[1]) < 0 || Hex(s[2]) < 0 then None
      else match PctDecode(s[3..])
        case None => None
        case Some(rest) => Some([(16 * Hex(s[1]) + Hex(s[2])) as char] + rest)
    else match PctDecode(s[1..])
      case None => None
      case Some(rest) => Some([s[0]] + rest)
  }

  lemma {:induction false} DecodePlain(a: string, b: string)
    requires Free(a, '%')
    ensures PctDecode(a + b) == match PctDecode(b) case None => None case Some(r) => Some(a + r)
  {
    if a == "" {
      assert a + b == b;
      if PctDecode(b).Some? { assert a + PctDecode(b).value == PctDecode(b).value; }
    } else {
      var rest := a[1..];
      DecodePlain(rest, b);
      assert (a + b)[0] == a[0] && (a + b)[1..] == rest + b;
      if PctDecode(b).Some? {
        Assoc([a[0]], rest, PctDecode(b).value);
        assert [a[0]] + rest == a;
      }
    }
  }

  /** Decoding shortens whatever has an escape in it. */
  lemma {:induction false} DecodeShrinks(s: string)
    requires !Free(s, '%') && PctDecode(s).Some?
    ensures |PctDecode(s).value| < |s|
  {
    if s[0] != '%' {
      var i :| 0 <= i < |s| && s[i] == '%';
      assert s[1..][i - 1] == '%';
      DecodeShrinks(s[1..]);
    }
  }

  /** Up to the first character that ends a path (section 3 of RFC 3986). */
  function PathPart(s: string): (p: string)
    ensures p <= s && Free(p, '?') && Free(p, '#')
    ensures p == s <==> Free(s, '?') && Free(s, '#')
  {
    if s == "" || s[0] == '?' || s[0] == '#' then "" else [s[0]] + PathPart(s[1..])
  }

  /** The path the handler sees of a URL's text after the host: what comes before
      any ? or #, cleaned, redirecting if need be, and decoded. */
  function Received(text: string): Option<string> {
    if PctDecode(PathPart(text)).None? then None else PctDecode(CleanPath(PathPart(text)))
  }

  /** Plain text, without the segments that cleaning changes. */
  predicate Untouched(text: string) {
    && Free(text, '?') && Free(text, '#') && Free(text, '%')
    && (text != "" ==> Tidy(Split(text[1..])))
  }

  /** The handler sees the very text exactly if there is nothing in it to end the
      path, to clean or to decode; if it sees another, that is shorter. */
  lemma ReceivedIff(text: string)
    requires text != "" && text[0] == '/'
    ensures if Untouched(text) then Received(text) == Some(text)
            else Received(text).Some? ==> |Received(text).value| < |text|
  {
    var path := PathPart(text);
    assert path != "" && path[0] == '/' && path == "/" + path[1..];
    CleanIff(path[1..]);
    if Untouched(text) {
      DecodePlain(text, "");
      assert text + "" == text;
    } else if Received(text).Some? {
      if path == text && CleanPath(path) == path { DecodeShrinks(text); }
    }
  }

  /** The decoded path of a request for the URL. */
  function RequestPath(site: Site, base: string): Option<string>
    requires site.host <= base
  {
    Received(base[|site.host|..])
  }

  /** Its token: the query's, unless a ? or # in the path has garbled the query. */
  function RequestToken(site: Site, url: InstanceUrl, garbled: string): string
    requires site.host <= url.base
  {
    if PathPart(url.base[|site.host|..]) != url.base[|site.host|..] then garbled
    else if "token" in url.query then url.query["token"] else ""
  }

  // ----- routing -----

  /** What parsepath works on: the path from the base path's last slash. */
  function Relative(uri: string, path: string): string
    requires uri != ""
  {
    if |path| > |uri| then path[|uri| - 1..] else "/"
  }

  function AsMap(segs: seq<string>): map<int, string> {
    map i | 0 <= i < |segs| :: segs[i]
  }

  lemma MapExtend(segs: seq<string>, last: string)
    ensures AsMap(segs)[|segs| := last] == AsMap(segs + [last])
  {}

  method ParsePath(uri: string, path: string) returns (parsed: map<int, string>)
    requires uri != ""
    ensures parsed == AsMap(Split(Relative(uri, path)))
  {
    var rest := Relative(uri, path);
    ghost var done: seq<string> := [];
    parsed := map[];
    var x := 0;
    while true
      invariant x == |done| && parsed == AsMap(done)
      invariant done + Split(rest) == Split(Relative(uri, path))
      decreases |rest|
    {
      var slash := IndexChar(rest, '/') + 1;
      var content := rest[..slash];
      if slash == 0 {
        MapExtend(done, rest);
        parsed := parsed[x := rest];
        return;
      }
      var segment := content[..slash - 1];
      assert segment == rest[..slash - 1];
      Assoc(done, [segment], Split(rest[slash..]));
      MapExtend(done, segment);
      parsed := parsed[x := segment];
      done := done + [segment];
      rest := rest[slash..];
      x := x + 1;
    }
  }

  /** The segments from one on, joined again. */
  method Next(path: map<int, string>, from: nat, ghost segs: seq<string>) returns (out: string)
    requires path == AsMap(segs)
    ensures out == if from <= |segs| then Join(segs[from..]) else ""
  {
    MapSize(segs);
    out := "";
    var x, l := from, |path| - 1;
    while x <= l
      invariant from <= x && (from <= |segs| ==> x <= |segs|)
      invariant from <= |segs| ==> out + Join(segs[x..]) == Join(segs[from..])
      invariant from > |segs| ==> out == ""
    {
      ghost var before := out;
      assert segs[x..][0] == segs[x] && segs[x..][1..] == segs[x + 1..];
      out := out + path[x];
      if x != l {
        out := out + "/";
        assert before + (segs[x] + "/" + Join(segs[x + 1..])) == out + Join(segs[x + 1..]);
      }
      x := x + 1;
    }
    assert from <= |segs| ==> segs[x..] == [];
  }

  lemma {:induction false} MapSize(segs: seq<string>)
    ensures |AsMap(segs)| == |segs|
  {
    assert AsMap(segs).Keys == Range(0, |segs|);
  }

  /** Where a request goes: the media proxy with its label and path, or elsewhere.
      Segments a path does not have read as empty. */
  datatype Route = ToMedia(subdomain: string, path: string) | Elsewhere

  function Seg(segs: seq<string>, i: nat): string { if i < |segs| then segs[i] else "" }

  function RouteOf(segs: seq<string>): Route {
    if Seg(segs, 1) == "media" && Seg(segs, 2) == "file"
    then ToMedia(Seg(segs, 3), if 4 <= |segs| then Join(segs[4..]) else "") else Elsewhere
  }

  /** The media/file dispatch of the handler, over its own parsed map. */
  method Dispatch(uri: string, path: string) returns (route: Route)
    requires uri != ""
    ensures route == RouteOf(Split(Relative(uri, path)))
  {
    ghost var segs := Split(Relative(uri, path));
    var parsed := ParsePath(uri, path);
    if 1 in parsed && parsed[1] == "media" && 2 in parsed && parsed[2] == "file" {
      var rest := Next(parsed, 4, segs);
      return ToMedia(if 3 in parsed then parsed[3] else "", rest);
    }
    return Elsewhere;
  }

  // ----- putting the CDN URL back together -----

  predicate LabelChar(c: char) { 'a' <= c <= 'z' || 'A' <= c <= 'Z' || '0' <= c <= '9' || c == '-' }

  predicate ValidLabel(s: string) { s != "" && forall i :: 0 <= i < |s| ==> LabelChar(s[i]) }

  function Digits(n: nat): string {
    if n < 10 then [('0' as int + n) as char] else Digits(n / 10) + [('0' as int + n % 10) as char]
  }

  /** Index of the first occurrence of sub, or -1. */
  function IndexOf(s: string, sub: string): (i: int)
    ensures i >= 0 ==> i + |sub| <= |s| && s[i..i + |sub|] == sub
  {
    if sub <= s then 0 else if s == "" then -1
    else var i := IndexOf(s[1..], sub); if i < 0 then -1 else i + 1
  }

  const FIT := "/v1/fit/"
  const BLUR := "blur_"

  /** Where a blur operation goes: just before the slash that ends the operations
      of a fit transform that has none yet. */
  function BlurAt(path: string): (k: int)
    ensures -1 <= k < |path|
  {
    var start := IndexOf(path, FIT);
    if start < 0 then -1
    else
      var ops := start + |FIT|;
      var end := IndexChar(path[ops..], '/');
      if end < 0 || IndexOf(path[ops..ops + end], BLUR) >= 0 then -1 else ops + end
  }

  function AddBlur(path: string, n: nat): string {
    var k := BlurAt(path);
    if k < 0 then path else path[..k] + ",blur_" + Digits(n) + path[k..]
  }

  function BuildMediaUrl(subdomain: string, path: string, token: string, demand: int): Option<CdnUrl> {
    if !ValidLabel(subdomain) then None
    else Some(CdnUrl(HostOf(subdomain), "/" + (if demand > 0 then AddBlur(path, demand) else path), token))
  }

  // ----- the round trip -----

  /** The base path starts and ends with a slash and is served as it is. */
  predicate ValidSite(site: Site) {
    site.uri != "" && site.uri[0] == '/' && site.uri[|site.uri| - 1] == '/' && Untouched(site.uri)
  }

  /** What the proxy fetches for a decoded path and a token: routed, then rebuilt. */
  function RoutedUrl(site: Site, path: string, token: string, demand: int): Option<CdnUrl>
    requires site.uri != ""
  {
    var route := RouteOf(Split(Relative(site.uri, path)));
    if route.ToMedia? then BuildMediaUrl(route.subdomain, route.path, token, demand) else None
  }

  /** From a CDN URL to what the proxy fetches for it: built into an instance URL,
      received, routed, and rebuilt. */
  function Fetched(site: Site, u: CdnUrl, filename: string, garbled: string, blur: string -> int): Option<CdnUrl> {
    var p := ProxiedMediaUrl(site, u, filename);
    if !p.Served? then None
    else
      var path := RequestPath(site, p.url.base);
      if path.None? || site.uri == "" then None
      else
        var token := RequestToken(site, p.url, garbled);
        RoutedUrl(site, path.value, token, blur(token))
  }

  /** A path that survives being pasted into a URL after a slash: none of ?, # and %,
      no & in front, and no ., .. or empty segment but perhaps the last. */
  predicate Pasteable(p: string) {
    Free(p, '?') && Free(p, '#') && Free(p, '%') && (p == "" || p[0] != '&') && Tidy(Split(p))
  }

  predicate RoundTrips(u: CdnUrl) {
    IsWixmpHost(u.host) && ValidLabel(LabelOf(u.host)) && "/" <= u.path && Pasteable(u.path[1..])
  }

  lemma LabelPlain(s: string)
    requires ValidLabel(s)
    ensures Free(s, '/') && Free(s, '?') && Free(s, '#') && Free(s, '%') && !QueryPart(s)
  {}

  /** What URLBuilder writes between the label and the path. */
  function Separator(path: string): string { if path != "" && !QueryPart(path) then "/" else "" }

  /** The instance URL's text after the base path. */
  function Tail(subdomain: string, path: string): string {
    "media" + "/" + ("file" + "/" + (subdomain + Separator(path) + path))
  }

  lemma BaseIs(site: Site, m: Media)
    requires ValidLabel(m.subdomain)
    ensures Indexable(MediaSegments(m))
    ensures Url(site, MediaSegments(m)) == site.host + (site.uri + Tail(m.subdomain, m.path))
  {
    LabelPlain(m.subdomain);
    var segs := MediaSegments(m);
    JoinedCons("media", ["file", m.subdomain, m.path]);
    JoinedCons("file", [m.subdomain, m.path]);
    JoinedCons(m.subdomain, [m.path]);
    assert segs == ["media"] + ["file", m.subdomain, m.path];
    assert ["file", m.subdomain, m.path] == ["file"] + [m.subdomain, m.path];
    assert [m.subdomain, m.path] == [m.subdomain] + [m.path];
    Assoc(site.host, site.uri, Joined(segs));
  }

  lemma Dropped(a: string, b: string)
    ensures (a + b)[|a|..] == b
  {}

  lemma RelativeTail(uri: string, tail: string)
    requires uri != "" && uri[|uri| - 1] == '/' && tail != ""
    ensures Relative(uri, uri + tail) == "" + "/" + tail
  {}

  lemma RouteOfParts(parts: seq<string>, tail: seq<string>)
    requires |parts| == 4 && parts[1] == "media" && parts[2] == "file"
    ensures RouteOf(parts + tail) == ToMedia(parts[3], if tail == [] then "" else Join(tail))
  {
    assert (parts + tail)[4..] == tail;
  }

  /** The text of the URL after the host. */
  function RequestText(site: Site, subdomain: string, path: string): string {
    site.uri + Tail(subdomain, path)
  }

  lemma LabelNormal(s: string)
    requires ValidLabel(s)
    ensures Normal(s)
  {
    assert LabelChar(s[0]);
    assert "."[0] == '.' && ".."[0] == '.';
  }

  lemma SplitTwo(a: string, b: string, rest: string)
    requires Free(a, '/') && Free(b, '/')
    ensures Split(a + "/" + (b + "/" + rest)) == [a] + ([b] + Split(rest))
  {
    SplitCons(a, b + "/" + rest);
    SplitCons(b, rest);
  }

  /** A path's segments; none of them if it is empty. */
  function Segments(path: string): seq<string> { if path == "" then [] else Split(path) }

  lemma LastSegments(subdomain: string, path: string)
    requires Free(subdomain, '/') && !(path != "" && QueryPart(path))
    ensures Split(subdomain + Separator(path) + path) == [subdomain] + Segments(path)
  {
    if path == "" {
      assert subdomain + "" + "" == subdomain;
      SplitAlone(subdomain);
    } else {
      SplitCons(subdomain, path);
    }
  }

  lemma PartSegments(a: string, b: string, subdomain: string, path: string)
    requires Free(a, '/') && Free(b, '/') && Free(subdomain, '/') && !(path != "" && QueryPart(path))
    ensures Split(a + "/" + (b + "/" + (subdomain + Separator(path) + path))) == [a, b, subdomain] + Segments(path)
  {
    LastSegments(subdomain, path);
    SplitTwo(a, b, subdomain + Separator(path) + path);
    Assoc([a], [b], [subdomain] + Segments(path));
    Assoc([a] + [b], [subdomain], Segments(path));
  }

  lemma TailSegments(subdomain: string, path: string)
    requires Free(subdomain, '/') && !(path != "" && QueryPart(path))
    ensures Split(Tail(subdomain, path)) == ["media", "file", subdomain] + Segments(path)
  {
    PartSegments("media", "file", subdomain, path);
  }

  /** The router takes the label and the path out of the URL's text again. */
  lemma RoutedText(site: Site, subdomain: string, path: string)
    requires site.uri != "" && site.uri[|site.uri| - 1] == '/'
    requires Free(subdomain, '/') && !(path != "" && QueryPart(path))
    ensures RouteOf(Split(Relative(site.uri, RequestText(site, subdomain, path)))) == ToMedia(subdomain, path)
  {
    TailSegments(subdomain, path);
    if path != "" { JoinSplit(path); }
    RouteOfTail(site.uri, Tail(subdomain, path), ["media", "file", subdomain], Segments(path));
  }

  lemma RouteOfTail(uri: string, tail: string, names: seq<string>, rest: seq<string>)
    requires uri != "" && uri[|uri| - 1] == '/' && tail != "" && Split(tail) == names + rest
    requires |names| == 3 && names[0] == "media" && names[1] == "file"
    ensures RouteOf(Split(Relative(uri, uri + tail))) == ToMedia(names[2], if rest == [] then "" else Join(rest))
  {
    RelativeTail(uri, tail);
    SplitCons("", tail);
    Assoc([""], names, rest);
    RouteOfParts([""] + names, rest);
  }

  lemma TextSegments(site: Site, subdomain: string, path: string)
    requires site.uri != "" && EndsInSlash(site.uri[1..])
    requires Free(subdomain, '/') && !(path != "" && QueryPart(path))
    ensures Split(RequestText(site, subdomain, path)[1..])
         == Dirs(site.uri[1..]) + (["media", "file", subdomain] + Segments(path))
  {
    var dirs, tail := site.uri[1..], Tail(subdomain, path);
    assert RequestText(site, subdomain, path)[1..] == dirs + tail;
    SplitDirs(dirs, tail);
    TailSegments(subdomain, path);
  }

  lemma TextTidy(site: Site, subdomain: string, path: string)
    requires ValidSite(site) && ValidLabel(subdomain) && !(path != "" && QueryPart(path))
    ensures Tidy(Split(RequestText(site, subdomain, path)[1..])) <==> Tidy(Split(path))
  {
    LabelPlain(subdomain);
    TextSegments(site, subdomain, path);
    TidyDirs(site.uri[1..]);
    NamesNormal(subdomain);
    SplitAlone("");
    TidyThree(Dirs(site.uri[1..]), ["media", "file", subdomain], Segments(path));
  }

  lemma NamesNormal(subdomain: string)
    requires ValidLabel(subdomain)
    ensures AllNormal(["media", "file", subdomain])
  {
    LabelNormal(subdomain);
    assert "media"[0] == 'm' && "file"[0] == 'f';
  }

  lemma TidyThree(dirs: seq<string>, names: seq<string>, rest: seq<string>)
    requires AllNormal(dirs) && AllNormal(names) && names != []
    ensures Tidy(dirs + (names + rest)) <==> Tidy(rest)
  {
    TidyAfter(dirs, names + rest);
    if rest == [] { assert names + rest == names; } else { TidyAfter(names, rest); }
  }

  /** The instance URL is served as it is exactly if its path is pasteable. */
  lemma TextUntouched(site: Site, subdomain: string, path: string)
    requires ValidSite(site) && ValidLabel(subdomain) && !(path != "" && QueryPart(path))
    ensures Untouched(RequestText(site, subdomain, path)) <==> Pasteable(path)
  {
    TextFree(site, subdomain, path, '?');
    TextFree(site, subdomain, path, '#');
    TextFree(site, subdomain, path, '%');
    TextTidy(site, subdomain, path);
  }

  lemma TextFree(site: Site, subdomain: string, path: string, c: char)
    requires ValidSite(site) && ValidLabel(subdomain) && (c == '?' || c == '#' || c == '%')
    ensures Free(RequestText(site, subdomain, path), c) <==> Free(path, c)
  {
    LabelPlain(subdomain);
    FreeJoin(site.uri, Tail(subdomain, path), c);
    FreeJoin("media" + "/", "file" + "/" + (subdomain + Separator(path) + path), c);
    FreeJoin("file" + "/", subdomain + Separator(path) + path, c);
    FreeJoin(subdomain + Separator(path), path, c);
    FreeJoin(subdomain, Separator(path), c);
  }

  lemma FreeJoin(a: string, b: string, c: char)
    ensures Free(a + b, c) <==> Free(a, c) && Free(b, c)
  {
    if Free(a + b, c) {
      forall i | 0 <= i < |a| ensures a[i] != c { assert (a + b)[i] == a[i]; }
      forall i | 0 <= i < |b| ensures b[i] != c { assert (a + b)[|a| + i] == b[i]; }
    }
  }

  /** The path the handler sees is that of the URL's text. */
  lemma RequestIs(site: Site, m: Media)
    requires ValidSite(site) && ValidLabel(m.subdomain)
    ensures Indexable(MediaSegments(m))
    ensures RequestPath(site, Url(site, MediaSegments(m))) == Received(RequestText(site, m.subdomain, m.path))
  {
    BaseIs(site, m);
    Dropped(site.host, site.uri + Tail(m.subdomain, m.path));
  }

  /** With a pasteable path, the proxy fetches the very URL it was given, but for
      the blur operation its token may demand. */
  lemma PasteableFetched(site: Site, u: CdnUrl, filename: string, garbled: string, blur: string -> int)
    requires ValidSite(site) && RoundTrips(u)
    ensures var n, p := blur(u.token), u.path[1..];
            Fetched(site, u, filename, garbled, blur)
            == Some(u.(path := "/" + if n > 0 then AddBlur(p, n) else p))
  {
    var m := Media(LabelOf(u.host), u.path[1..], u.token);
    LabelHost(u.host);
    var text := RequestText(site, m.subdomain, m.path);
    assert RequestPath(site, Url(site, MediaSegments(m))) == Some(text) by {
      RequestIs(site, m);
      TextUntouched(site, m.subdomain, m.path);
      ReceivedIff(text);
    }
    assert RequestToken(site, BuiltUrl(site, m, filename), garbled) == m.token by {
      TokenKept(site, m, filename, garbled);
    }
    LabelPlain(m.subdomain);
    RoutedText(site, m.subdomain, m.path);
  }

  /** The token the server sees is the one the CDN URL carried. */
  lemma TokenKept(site: Site, m: Media, filename: string, garbled: string)
    requires ValidSite(site) && ValidLabel(m.subdomain) && Pasteable(m.path)
    ensures Indexable(MediaSegments(m))
    ensures RequestToken(site, BuiltUrl(site, m, filename), garbled) == m.token
  {
    BaseIs(site, m);
    var text := RequestText(site, m.subdomain, m.path);
    Dropped(site.host, text);
    assert PathPart(text) == text by {
      TextFree(site, m.subdomain, m.path, '?');
      TextFree(site, m.subdomain, m.path, '#');
    }
    QueryCarries(m, filename);
  }

  /** The instance URL of a media URL with a plain label, spelt out. */
  lemma ServedUrl(site: Site, u: CdnUrl, filename: string)
    requires IsWixmpHost(u.host) && ValidLabel(LabelOf(u.host))
    ensures var path := TrimSlash(u.path);
            var slash := if path == "" || path[0] == '?' || path[0] == '&' then "" else "/";
            ProxiedMediaUrl(site, u, filename)
            == Served(InstanceUrl(
                 site.host + (site.uri + ("media" + "/" + ("file" + "/" + (LabelOf(u.host) + slash + path)))),
                 MediaQuery(Media(LabelOf(u.host), path, u.token), filename)))
  {
    BaseIs(site, Media(LabelOf(u.host), TrimSlash(u.path), u.token));
  }

  lemma JoinLength(segs: seq<string>)
    requires |segs| >= 2
    ensures |Join(segs)| == |segs[0]| + 1 + |Join(segs[1..])|
  {}

  lemma JoinFive(segs: seq<string>)
    requires |segs| >= 5
    ensures |Join(segs)| == |segs[0]| + |segs[1]| + |segs[2]| + |segs[3]| + 4 + |Join(segs[4..])|
  {
    JoinLength(segs);
    JoinLength(segs[1..]);
    JoinLength(segs[2..]);
    JoinLength(segs[3..]);
    assert segs[1..][1..] == segs[2..] && segs[2..][1..] == segs[3..] && segs[3..][1..] == segs[4..];
  }

  /** A request routed to a label and a path is long enough to hold both. */
  lemma RouteLength(uri: string, path: string, subdomain: string, rest: string)
    requires uri != "" && RouteOf(Split(Relative(uri, path))) == ToMedia(subdomain, rest) && rest != ""
    ensures |path| >= |uri| + |"media/file/"| + |subdomain| + 1 + |rest|
  {
    var segs := Split(Relative(uri, path));
    JoinSplit(Relative(uri, path));
    if |segs| > 4 { JoinFive(segs); }
  }

  /** A URL's text whose path the router gives back was served as it is: anything
      else it may have been served as is too short. */
  lemma RoutedPasteable(site: Site, subdomain: string, path: string)
    requires ValidSite(site) && ValidLabel(subdomain)
    requires Received(RequestText(site, subdomain, path)).Some?
    requires RouteOf(Split(Relative(site.uri, Received(RequestText(site, subdomain, path)).value)))
          == ToMedia(subdomain, path)
    ensures Pasteable(path)
  {
    var text := RequestText(site, subdomain, path);
    ReceivedIff(text);
    if path == "" {
      SplitAlone("");
    } else {
      TextLength(site, subdomain, path);
      RouteLength(site.uri, Received(text).value, subdomain, path);
      TextUntouched(site, subdomain, path);
    }
  }

  lemma TextLength(site: Site, subdomain: string, path: string)
    ensures |RequestText(site, subdomain, path)|
         == |site.uri| + |"media/file/"| + |subdomain| + |Separator(path)| + |path|
  {}

  lemma BuiltHost(site: Site, u: CdnUrl, filename: string, garbled: string, blur: string -> int)
    requires Fetched(site, u, filename, garbled, blur).Some?
    ensures var f := Fetched(site, u, filename, garbled, blur).value;
            IsWixmpHost(f.host) && ValidLabel(LabelOf(f.host)) && "/" <= f.path
  {
    var p := ProxiedMediaUrl(site, u, filename);
    var path := RequestPath(site, p.url.base);
    var route := RouteOf(Split(Relative(site.uri, path.value)));
    HostLabel(route.subdomain);
  }

  // ----- the host as it is read out of the URL built -----

  /** Up to the first of some characters. */
  function UpTo(s: string, stops: set<char>): (p: string)
    ensures p <= s && (forall i :: 0 <= i < |p| ==> p[i] !in stops)
    ensures |p| < |s| ==> s[|p|] in stops
  {
    if s == "" || s[0] in stops then "" else [s[0]] + UpTo(s[1..], stops)
  }

  /** What follows the last c. */
  function AfterLast(s: string, c: char): (r: string)
    ensures Free(r, c) && (Free(s, c) ==> r == s) && (forall i :: 0 <= i < |r| ==> r[i] in s)
  {
    if Free(s, c) then s else AfterLast(s[1..], c)
  }

  /** The host of a URL's text after the scheme (section 3.2 of RFC 3986): the
      authority ends at the first /, ? or #, and has userinfo up to its last @ and
      a port after a colon. */
  function HostRead(rest: string): (h: string)
    ensures Free(h, '/') && Free(h, '?') && Free(h, '#') && Free(h, '@') && Free(h, ':')
  {
    UpTo(AfterLast(UpTo(rest, {'/', '?', '#'}), '@'), {':'})
  }

  predicate HostPlain(s: string) { Free(s, '/') && Free(s, '?') && Free(s, '#') && Free(s, '@') && Free(s, ':') }

  lemma {:induction false} UpToStop(a: string, b: string, stops: set<char>)
    requires (forall i :: 0 <= i < |a| ==> a[i] !in stops) && (b != "" ==> b[0] in stops)
    ensures UpTo(a + b, stops) == a
  {
    if a == "" {
      assert a + b == b;
    } else {
      assert (a + b)[0] == a[0] && (a + b)[1..] == a[1..] + b;
      UpToStop(a[1..], b, stops);
    }
  }

  /** The text of the URL names the host it was meant to exactly if no character of
      the label ends the host, or the userinfo before it. */
  lemma HostReadIff(subdomain: string, rest: string)
    requires "/" <= rest
    ensures HostRead(HostOf(subdomain) + rest) == HostOf(subdomain) <==> HostPlain(subdomain)
  {
    var h := HostOf(subdomain);
    HostPlainParts(subdomain);
    if HostPlain(subdomain) {
      UpToStop(h, rest, {'/', '?', '#'});
      UpToStop(h, "", {':'});
      assert h + "" == h;
    }
  }

  lemma HostPlainParts(subdomain: string)
    ensures HostPlain(HostOf(subdomain)) <==> HostPlain(subdomain)
  {
    forall c | c in {'/', '?', '#', '@', ':'} ensures Free(HostOf(subdomain), c) <==> Free(subdomain, c) {
      FreeJoin(HOST_PREFIX + subdomain, HOST_SUFFIX, c);
      FreeJoin(HOST_PREFIX, subdomain, c);
    }
  }

  /** Whatever path and token are asked for, a URL is built exactly if the label
      routed is plain, and the host read out of its text, however its path is
      written out, is a wixmp one: one label between prefix and suffix. */
  lemma FetchedHost(uri: string, path: string, token: string, demand: int, rest: string)
    requires uri != "" && "/" <= rest
    ensures var route := RouteOf(Split(Relative(uri, path)));
            route.ToMedia? ==>
              var built := BuildMediaUrl(route.subdomain, route.path, token, demand);
              && (built.Some? <==>
                    && route.subdomain != ""
                    && forall i :: 0 <= i < |route.subdomain| ==>
                         var ch := route.subdomain[i];
                         'a' <= ch <= 'z' || 'A' <= ch <= 'Z' || '0' <= ch <= '9' || ch == '-')
              && (built.Some? ==>
                    && HostRead(built.value.host + rest) == "images-wixmp-" + route.subdomain + ".wixmp.com"
                    && Free(route.subdomain, '.') && "/" <= built.value.path)
  {
    var route := RouteOf(Split(Relative(uri, path)));
    if route.ToMedia? { HostReadIff(route.subdomain, rest); }
  }

  /** Building the instance URL panics exactly for an empty label before a path
      that is joined with a slash. */
  lemma PanicsIff(site: Site, u: CdnUrl, filename: string)
    ensures ProxiedMediaUrl(site, u, filename).Panics? <==>
              && IsWixmpHost(u.host) && LabelOf(u.host) == ""
              && TrimSlash(u.path) != "" && !QueryPart(TrimSlash(u.path))
  {
    if IsWixmpHost(u.host) {
      var segs := MediaSegments(Media(LabelOf(u.host), TrimSlash(u.path), u.token));
      assert segs[3] == TrimSlash(u.path) && segs[2] == LabelOf(u.host) && segs[1] == "file" && segs[0] == "media";
    }
  }

  // ----- the blur operation -----

  function Read(s: string): int {
    if s == "" then 0 else Read(s[..|s| - 1]) * 10 + (s[|s| - 1] as int - '0' as int)
  }

  /** The radius is written in decimal. */
  lemma {:induction false} DigitsRead(n: nat)
    ensures Read(Digits(n)) == n && Free(Digits(n), '/')
  {
    if n >= 10 { DigitsRead(n / 10); }
  }

  /** A first occurrence depends only on the text up to its end. */
  lemma {:induction false} IndexOfPrefix(a: string, x: string, y: string, sub: string)
    requires sub != "" && 0 <= IndexOf(a + x, sub) && IndexOf(a + x, sub) + |sub| <= |a|
    ensures IndexOf(a + y, sub) == IndexOf(a + x, sub)
  {
    assert (a + x)[..|sub|] == a[..|sub|] == (a + y)[..|sub|];
    if !(sub <= a + x) {
      assert !(sub <= a + y);
      assert (a + x)[1..] == a[1..] + x && (a + y)[1..] == a[1..] + y;
      IndexOfPrefix(a[1..], x, y, sub);
    } else {
      assert sub <= a + y;
    }
  }

  /** What is found is the first occurrence. */
  lemma {:induction false} IndexOfFound(s: string, i: nat, sub: string)
    requires i + |sub| <= |s| && s[i..i + |sub|] == sub
    ensures 0 <= IndexOf(s, sub) <= i
  {
    if i == 0 {
      assert sub <= s;
    } else if !(sub <= s) {
      assert s[1..][i - 1..i - 1 + |sub|] == s[i..i + |sub|];
      IndexOfFound(s[1..], i - 1, sub);
    }
  }

  lemma SlashAfter(x: string, y: string)
    requires Free(x, '/') && y != "" && y[0] == '/'
    ensures IndexChar(x + y, '/') == |x|
  {
    assert (x + y)[|x|] == '/';
  }

  lemma Middle(pre: string, mid: string, rest: string)
    ensures (pre + mid + rest)[|pre|..] == mid + rest
    ensures (pre + mid + rest)[|pre|..|pre| + |mid|] == mid
  {}

  /** A transform whose operations already name a blur takes no other. */
  lemma BlurredAlready(pre: string, ops: string, rest: string)
    requires Free(ops, '/') && rest != "" && rest[0] == '/' && IndexOf(ops, BLUR) >= 0
    requires IndexOf(pre + ops + rest, FIT) + |FIT| == |pre|
    ensures BlurAt(pre + ops + rest) == -1
  {
    Middle(pre, ops, rest);
    SlashAfter(ops, rest);
  }

  /** The operations once a blur has been added name one. */
  lemma BlurNamed(ops: string, n: nat)
    requires Free(ops, '/')
    ensures Free(ops + ",blur_" + Digits(n), '/') && IndexOf(ops + ",blur_" + Digits(n), BLUR) >= 0
  {
    DigitsRead(n);
    var all := ops + ",blur_" + Digits(n);
    assert all[|ops| + 1..|ops| + 1 + |BLUR|] == BLUR;
    IndexOfFound(all, |ops| + 1, BLUR);
  }

  /** A path cut just after its first fit marker and just before the slash that ends
      the transform's operations, which name no blur. */
  ghost predicate PlainFit(path: string, pre: string, ops: string, rest: string) {
    && path == pre + ops + rest
    && IndexOf(path, "/v1/fit/") >= 0 && IndexOf(path, "/v1/fit/") + |"/v1/fit/"| == |pre|
    && Free(ops, '/') && IndexOf(ops, "blur_") < 0
    && rest != "" && rest[0] == '/'
  }

  /** Such a path gains the blur, after its other operations. */
  lemma BlurAdded(path: string, pre: string, ops: string, rest: string, n: nat)
    requires PlainFit(path, pre, ops, rest)
    ensures AddBlur(path, n) == pre + ops + ",blur_" + Digits(n) + rest
    ensures |AddBlur(path, n)| > |path|
  {
    Middle(pre, ops, rest);
    SlashAfter(ops, rest);
    assert BlurAt(path) == |pre + ops|;
    assert path[..|pre + ops|] == pre + ops && path[|pre + ops|..] == rest;
  }

  /** ... and no other path changes. */
  lemma BlurIff(path: string, n: nat)
    ensures AddBlur(path, n) != path <==> exists pre, ops, rest :: PlainFit(path, pre, ops, rest)
  {
    if BlurAt(path) >= 0 { var pre, ops, rest := FitParts(path); }
    if pre, ops, rest :| PlainFit(path, pre, ops, rest) { BlurAdded(path, pre, ops, rest, n); }
  }

  lemma FitParts(path: string) returns (pre: string, ops: string, rest: string)
    requires BlurAt(path) >= 0
    ensures PlainFit(path, pre, ops, rest)
  {
    var cut := IndexOf(path, FIT) + |FIT|;
    var tail := path[cut..];
    var end := IndexChar(tail, '/');
    pre, ops, rest := path[..cut], tail[..end], tail[end..];
    assert ops == path[cut..cut + end];
    Pieces(path, cut, end);
  }

  lemma Pieces(s: string, i: nat, n: nat)
    requires i + n <= |s|
    ensures s == s[..i] + s[i..][..n] + s[i..][n..]
  {}

  /** Asking for a blur again changes nothing. */
  lemma BlurOnce(path: string, n: nat, m: nat)
    ensures AddBlur(AddBlur(path, n), m) == AddBlur(path, n)
  {
    if BlurAt(path) >= 0 {
      var pre, ops, rest := FitParts(path);
      BlurAdded(path, pre, ops, rest, n);
      var named := ops + ",blur_" + Digits(n);
      BlurNamed(ops, n);
      Assoc(pre, ops, rest);
      IndexOfPrefix(pre, ops + rest, named + rest, FIT);
      Assoc(pre, named, rest);
      BlurRegroup(pre, ops, ",blur_", Digits(n), rest);
      BlurredAlready(pre, named, rest);
    }
  }

  lemma BlurRegroup(a: string, b: string, c: string, d: string, e: string)
    ensures a + b + c + d + e == a + (b + c + d) + e
  {}
}
