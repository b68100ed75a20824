/** URLBuilder of app/util.go: joining segments into an absolute instance URL. */
module Urls {
  import opened Common

  /** The request's scheme and host, and the configured base path. */
  datatype Site = Site(host: string, uri: string)

  predicate QueryPart(s: string)
    requires s != ""
  {
    s[0] == '?' || s[0] == '&'
  }

  /** What the source indexes: a segment followed by a non-empty path segment. */
  predicate Indexable(segs: seq<string>) {
    forall i :: 0 < i < |segs| && segs[i] != "" && !QueryPart(segs[i]) ==> segs[i - 1] != ""
  }

  /** The separator written between two neighbours. */
  function Glue(before: string, after: string): string
    requires after != "" && !QueryPart(after) ==> before != ""
  {
    if after != "" && !QueryPart(after) && !QueryPart(before) then "/" else ""
  }

  function Joined(segs: seq<string>): string
    requires Indexable(segs)
  {
    if segs == [] then ""
    else if |segs| == 1 then segs[0]
    else segs[0] + Glue(segs[0], segs[1]) + Joined(segs[1..])
  }

  /** A first segment, the separator it calls for, and the rest. */
  lemma JoinedCons(first: string, rest: seq<string>)
    requires first != "" && Indexable(rest) && rest != []
    ensures Indexable([first] + rest) && Joined([first] + rest) == first + Glue(first, rest[0]) + Joined(rest)
  {
    var all := [first] + rest;
    assert all[1..] == rest;
    forall i | 0 < i < |all| && all[i] != "" && !QueryPart(all[i]) ensures all[i - 1] != "" {
      if i > 1 { assert all[i] == rest[i - 1] && all[i - 1] == rest[i - 2]; }
    }
  }

  function Url(site: Site, segs: seq<string>): string
    requires Indexable(segs)
  {
    site.host + site.uri + Joined(segs)
  }

  method URLBuilder(site: Site, segs: seq<string>) returns (str: string)
    requires Indexable(segs)
    ensures str == Url(site, segs)
  {
    str := site.host;
    str := str + site.uri;
    for n := 0 to |segs|
      invariant str + Joined(segs[n..]) == Url(site, segs)
    {
      var x := segs[n];
      assert segs[n..][0] == x && segs[n..][1..] == segs[n + 1..];
      ghost var before, rest := str, Joined(segs[n + 1..]);
      str := str + x;
      if n + 1 < |segs| && segs[n + 1] != "" && segs[n + 1][0] != '?' && segs[n + 1][0] != '&'
         && x[0] != '?' && x[0] != '&' {
        str := str + "/";
      }
      ghost var glue := if n + 1 < |segs| then Glue(x, segs[n + 1]) else "";
      assert Joined(segs[n..]) == x + glue + rest;
      assert str == before + x + glue;
      Assoc(before, x, glue);
      Assoc(before, x + glue, rest);
    }
  }
}
