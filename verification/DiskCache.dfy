/** rotateCache of app/cache.go: expired files go, then the oldest until the rest
    fit the cap. */
module DiskCache {
  import opened Common

  datatype Entry = Entry(dir: bool, statOk: bool, size: nat, mod: int)

  type Listing = map<string, Entry>

  predicate Expired(e: Entry, lifetime: int, now: int) { lifetime > 0 && e.mod + lifetime <= now }

  /** Files whose information could be read. */
  predicate Counted(e: Entry) { !e.dir && e.statOk }

  function Stale(m: Listing, lifetime: int, now: int): set<string> {
    set f | f in m && Counted(m[f]) && Expired(m[f], lifetime, now)
  }

  function Live(m: Listing, lifetime: int, now: int): set<string> {
    set f | f in m && Counted(m[f]) && !Expired(m[f], lifetime, now)
  }

  // ----- sizes -----

  ghost function Total(m: Listing, s: set<string>): nat
    requires s <= m.Keys
  {
    if s == {} then 0 else var f :| f in s; m[f].size + Total(m, s - {f})
  }

  lemma {:induction false} TotalWithout(m: Listing, s: set<string>, f: string)
    requires s <= m.Keys && f in s
    ensures Total(m, s) == m[f].size + Total(m, s - {f})
    decreases |s|
  {
    var g :| g in s && Total(m, s) == m[g].size + Total(m, s - {g});
    if g != f {
      TotalWithout(m, s - {g}, f);
      TotalWithout(m, s - {f}, g);
      assert s - {g} - {f} == s - {f} - {g};
    }
  }

  lemma {:induction false} TotalMonotone(m: Listing, s: set<string>, t: set<string>)
    requires s <= t <= m.Keys
    ensures Total(m, s) <= Total(m, t)
    decreases |t|
  {
    if f :| f in t && f !in s {
      TotalWithout(m, t, f);
      TotalMonotone(m, s, t - {f});
    } else {
      assert s == t;
    }
  }

  // ----- what a trim to the cap may remove -----

  /** cut is a minimal set of oldest files whose removal makes the rest fit. */
  ghost predicate IsTrim(m: Listing, live: set<string>, cut: set<string>, maxSize: int)
    requires live <= m.Keys
  {
    && cut <= live
    && (forall a, b :: a in cut && b in live - cut ==> m[a].mod <= m[b].mod)
    && (maxSize <= 0 ==> cut == {})
    && (maxSize > 0 ==> Total(m, live - cut) <= maxSize)
    && (cut != {} ==> exists last :: last in cut && LastCut(m, live, cut, maxSize, last))
  }

  /** The newest file cut, and the one the cap could not have spared. */
  ghost predicate LastCut(m: Listing, live: set<string>, cut: set<string>, maxSize: int, last: string)
    requires cut <= live <= m.Keys && last in cut
  {
    (forall a :: a in cut ==> m[a].mod <= m[last].mod) && Total(m, (live - cut) + {last}) > maxSize
  }

  /** Files that were last modified no earlier than f. */
  ghost function NoOlder(m: Listing, live: set<string>, f: string): set<string>
    requires live <= m.Keys && f in live
  {
    set g | g in live && m[g].mod >= m[f].mod
  }

  /** When no two files share a modification time the trim has no choice: a file
      stays exactly if it and everything newer fit together. */
  lemma TrimIsForced(m: Listing, live: set<string>, cut: set<string>, maxSize: int, f: string)
    requires live <= m.Keys && IsTrim(m, live, cut, maxSize) && maxSize > 0 && f in live
    requires forall a, b :: a in live && b in live && a != b ==> m[a].mod != m[b].mod
    ensures f !in cut <==> Total(m, NoOlder(m, live, f)) <= maxSize
  {
    var newer := NoOlder(m, live, f);
    if f !in cut {
      assert newer <= live - cut;
      TotalMonotone(m, newer, live - cut);
    } else {
      var last :| last in cut && LastCut(m, live, cut, maxSize, last);
      assert (live - cut) + {last} <= newer;
      TotalMonotone(m, (live - cut) + {last}, newer);
    }
  }

  /** A cache within its cap loses nothing but expired files, so expired files
      never push out a live one. */
  lemma FitsSoNothingCut(m: Listing, live: set<string>, cut: set<string>, maxSize: int)
    requires live <= m.Keys && IsTrim(m, live, cut, maxSize)
    requires maxSize <= 0 || Total(m, live) <= maxSize
    ensures cut == {}
  {
    if cut != {} {
      var last :| last in cut && LastCut(m, live, cut, maxSize, last);
      TotalMonotone(m, (live - cut) + {last}, live);
    }
  }

  // ----- the rotation as it is -----

  /** One file as the rotation sees it. */
  datatype Cached = Cached(name: string, size: nat, mod: int)

  function Names(fs: seq<Cached>): set<string> {
    if fs == [] then {} else {fs[0].name} + Names(fs[1..])
  }

  function Sum(fs: seq<Cached>): nat {
    if fs == [] then 0 else fs[0].size + Sum(fs[1..])
  }

  /** fs describes files of m, each once. */
  ghost predicate Describes(m: Listing, fs: seq<Cached>) {
    fs != [] ==>
      && fs[0].name in m && fs[0].size == m[fs[0].name].size && fs[0].mod == m[fs[0].name].mod
      && fs[0].name !in Names(fs[1..]) && Describes(m, fs[1..])
  }

  lemma {:induction false} DescribedNames(m: Listing, fs: seq<Cached>)
    requires Describes(m, fs)
    ensures Names(fs) <= m.Keys && Sum(fs) == Total(m, Names(fs))
  {
    if fs != [] {
      DescribedNames(m, fs[1..]);
      TotalWithout(m, Names(fs), fs[0].name);
      assert Names(fs) - {fs[0].name} == Names(fs[1..]);
    }
  }

  /** Oldest first. */
  predicate Sorted(fs: seq<Cached>) {
    fs != [] ==> (forall g :: g in fs[1..] ==> fs[0].mod <= g.mod) && Sorted(fs[1..])
  }

  function Inserted(f: Cached, fs: seq<Cached>): seq<Cached> {
    if fs == [] || f.mod <= fs[0].mod then [f] + fs else [fs[0]] + Inserted(f, fs[1..])
  }

  lemma {:induction false} InsertedSorted(m: Listing, f: Cached, fs: seq<Cached>)
    requires Sorted(fs) && Describes(m, [f] + fs)
    ensures Sorted(Inserted(f, fs)) && Describes(m, Inserted(f, fs))
    ensures Names(Inserted(f, fs)) == {f.name} + Names(fs) && Sum(Inserted(f, fs)) == f.size + Sum(fs)
    ensures forall g :: g in Inserted(f, fs) <==> g == f || g in fs
  {
    assert ([f] + fs)[1..] == fs;
    if fs != [] {
      if f.mod <= fs[0].mod {
        assert forall g :: g in fs ==> g == fs[0] || g in fs[1..];
      } else {
        assert ([f] + fs[1..])[1..] == fs[1..];
        InsertedSorted(m, f, fs[1..]);
        var out := Inserted(f, fs);
        assert out[1..] == Inserted(f, fs[1..]);
        assert forall g :: g in fs <==> g == fs[0] || g in fs[1..];
      }
    }
  }

  /** sort.Slice by modification time; ties come out in whatever order. */
  method SortByAge(fs: seq<Cached>, ghost m: Listing) returns (out: seq<Cached>)
    requires Describes(m, fs)
    ensures Sorted(out) && Describes(m, out) && Names(out) == Names(fs) && Sum(out) == Sum(fs)
  {
    out := [];
    var n := |fs|;
    assert fs[n..] == [];
    while n > 0
      invariant 0 <= n <= |fs| && Describes(m, fs[n..]) && Describes(m, out) && Sorted(out)
      invariant Names(out) == Names(fs[n..]) && Sum(out) == Sum(fs[n..])
    {
      n := n - 1;
      DescribesSuffix(m, fs, n);
      assert fs[n..][0] == fs[n] && fs[n..][1..] == fs[n + 1..];
      assert ([fs[n]] + out)[1..] == out;
      InsertedSorted(m, fs[n], out);
      out := Inserted(fs[n], out);
    }
    assert fs[0..] == fs;
  }

  lemma {:induction false} DescribesSuffix(m: Listing, fs: seq<Cached>, n: nat)
    requires Describes(m, fs) && n <= |fs|
    ensures Describes(m, fs[n..])
  {
    if n == 0 {
      assert fs[0..] == fs;
    } else {
      DescribesSuffix(m, fs[1..], n - 1);
      assert fs[1..][n - 1..] == fs[n..];
    }
  }

  /** What a directory holds after every removal that can succeed. */
  function Without(m: Listing, gone: set<string>, stuck: set<string>): Listing {
    m - (gone - stuck)
  }

  lemma WithoutOne(m: Listing, gone: set<string>, stuck: set<string>, f: string)
    ensures Without(m, gone, stuck) - (if f in stuck then {} else {f}) == Without(m, gone + {f}, stuck)
  {
    if f in stuck {
      assert (gone + {f}) - stuck == gone - stuck;
    } else {
      assert (gone + {f}) - stuck == (gone - stuck) + {f};
      assert m - (gone - stuck) - {f} == m - ((gone - stuck) + {f});
    }
  }

  /** How reading the directory went. */
  datatype Listed = Missing | Unreadable | Read(m: Listing)

  lemma SweepOne(s: set<string>, todo: set<string>, f: string)
    requires f in todo
    ensures s - (todo - {f}) == (s - todo) + (if f in s then {f} else {}) && f !in s - todo
  {}

  function Listed1(m: Listing, files: seq<Cached>, f: string): (out: seq<Cached>)
    requires f in m
    ensures Names(out) == Names(files) + {f} && Sum(out) == Sum(files) + m[f].size
    ensures Describes(m, files) && f !in Names(files) ==> Describes(m, out)
  {
    assert ([Cached(f, m[f].size, m[f].mod)] + files)[1..] == files;
    [Cached(f, m[f].size, m[f].mod)] + files
  }

  lemma NothingGone(m: Listing, stuck: set<string>)
    ensures Without(m, {}, stuck) == m
  {
    assert {} - stuck == {};
  }

  lemma NothingDone(s: set<string>, all: set<string>)
    requires s <= all
    ensures s - all == {} && s - {} == s
  {}

  lemma Peel(files: seq<Cached>, i: nat)
    requires i < |files|
    ensures files[i..][0] == files[i] && files[i..][1..] == files[i + 1..]
  {}

  lemma OneMore(gone: set<string>, cut: set<string>, f: string)
    ensures gone + cut + {f} == gone + (cut + {f})
  {}

  class Disk {
    var dir: Listed
    const stuck: set<string> // files whose removal fails; it is logged and passed over

    /** os.Remove, from a directory that is m without what has gone so far. */
    method Remove(f: string, ghost m: Listing, ghost gone: set<string>)
      requires dir == Read(Without(m, gone, stuck))
      modifies this
      ensures dir == Read(Without(m, gone + {f}, stuck))
    {
      WithoutOne(m, gone, stuck, f);
      if f !in stuck {
        dir := Read(dir.m - {f});
      } else {
        assert dir.m - {} == dir.m;
      }
    }

    /** The first loop's body. */
    method SweepEntry(m: Listing, name: string, lifetime: int, now: int,
                      files: seq<Cached>, total: nat, ghost gone: set<string>)
      returns (files': seq<Cached>, total': nat)
      requires name in m && dir == Read(Without(m, gone, stuck)) && name !in Names(files)
      requires Describes(m, files) && total == Sum(files)
      modifies this
      ensures dir == Read(Without(m, gone + (if name in Stale(m, lifetime, now) then {name} else {}), stuck))
      ensures Names(files') == Names(files) + (if name in Live(m, lifetime, now) then {name} else {})
      ensures Describes(m, files') && total' == Sum(files')
    {
      var e := m[name];
      files', total' := files, total;
      if e.dir || !e.statOk {
        assert gone + {} == gone;
        return;
      }
      if lifetime > 0 && e.mod + lifetime <= now {
        Remove(name, m, gone);
        return;
      }
      assert gone + {} == gone;
      files', total' := Listed1(m, files, name), total + e.size;
    }

    /** The first loop: expired files go, the rest are listed and their sizes added up. */
    method Sweep(lifetime: int, now: int) returns (files: seq<Cached>, total: nat)
      requires dir.Read?
      modifies this
      ensures dir == Read(Without(old(dir.m), Stale(old(dir.m), lifetime, now), stuck))
      ensures Describes(old(dir.m), files) && Names(files) == Live(old(dir.m), lifetime, now) && total == Sum(files)
    {
      var m := dir.m;
      var todo := m.Keys;
      files, total := [], 0;
      ghost var stale, live := Stale(m, lifetime, now), Live(m, lifetime, now);
      NothingDone(stale, todo);
      NothingDone(live, todo);
      NothingGone(m, stuck);
      while todo != {}
        invariant todo <= m.Keys && dir == Read(Without(m, stale - todo, stuck))
        invariant Describes(m, files) && Names(files) == live - todo && total == Sum(files)
        decreases |todo|
      {
        var name :| name in todo;
        SweepOne(stale, todo, name);
        SweepOne(live, todo, name);
        files, total := SweepEntry(m, name, lifetime, now, files, total, stale - todo);
        todo := todo - {name};
      }
    }

    /** The second loop: from the oldest on, remove until the rest fit. */
    method Trim(files: seq<Cached>, total: nat, maxSize: int, ghost m: Listing, ghost gone: set<string>)
      returns (ghost cut: set<string>)
      requires dir == Read(Without(m, gone, stuck))
      requires Describes(m, files) && Sorted(files) && total == Sum(files) && maxSize > 0
      modifies this
      ensures Names(files) <= m.Keys && IsTrim(m, Names(files), cut, maxSize)
      ensures dir == Read(Without(m, gone + cut, stuck))
    {
      DescribedNames(m, files);
      ghost var last := "";
      ghost var live := Names(files);
      cut := {};
      var left, i := total, 0;
      assert files[0..] == files && gone + {} == gone;
      while i < |files| && left > maxSize
        invariant i <= |files| && left == Sum(files[i..])
        invariant dir == Read(Without(m, gone + cut, stuck))
        invariant CutTo(m, live, cut, files[i..], last, maxSize)
      {
        var f := files[i];
        Peel(files, i);
        CutOneMore(m, live, cut, files[i..], last, maxSize);
        Remove(f.name, m, gone + cut);
        OneMore(gone, cut, f.name);
        cut, last := cut + {f.name}, f.name;
        left := left - f.size;
        i := i + 1;
      }
      assert i == |files| ==> files[i..] == [];
      CutIsTrim(m, live, cut, files[i..], last, maxSize);
    }

    /** rotateCache. The ghost result is what was chosen to make room. */
    method RotateCache(lifetime: int, maxSize: int, now: int) returns (ok: bool, ghost cut: set<string>)
      modifies this
      ensures ok <==> !old(dir).Unreadable?
      ensures old(dir).Missing? ==> dir == Read(map[])
      ensures old(dir).Unreadable? ==> dir == old(dir)
      ensures old(dir).Read? ==>
                && IsTrim(old(dir).m, Live(old(dir).m, lifetime, now), cut, maxSize)
                && dir == Read(Without(old(dir).m, Stale(old(dir).m, lifetime, now) + cut, stuck))
    {
      cut := {};
      match dir {
        case Missing =>
          dir := Read(map[]);
          return true, {};
        case Unreadable =>
          return false, {};
        case Read(m) =>
          var files, total := Sweep(lifetime, now);
          ghost var gone := Stale(m, lifetime, now);
          DescribedNames(m, files);
          assert gone + {} == gone;
          if maxSize <= 0 || total <= maxSize {
            assert Live(m, lifetime, now) - {} == Live(m, lifetime, now);
            return true, {};
          }
          files := SortByAge(files, m);
          cut := Trim(files, total, maxSize, m, gone);
          return true, cut;
      }
    }
  }

  /** The trim half way: cut has gone, oldest first and last the latest of them;
      rest is what remains, and it was too much until last went. */
  ghost predicate CutTo(m: Listing, live: set<string>, cut: set<string>,
                        rest: seq<Cached>, last: string, maxSize: int)
  {
    && live <= m.Keys && Describes(m, rest) && Sorted(rest)
    && Names(rest) <= live && cut == live - Names(rest)
    && (forall a, b :: a in cut && b in Names(rest) ==> m[a].mod <= m[b].mod)
    && (cut != {} ==>
          && last in cut && (forall a :: a in cut ==> m[a].mod <= m[last].mod)
          && Total(m, Names(rest) + {last}) > maxSize)
  }

  lemma {:induction false} HeadIsOldest(m: Listing, fs: seq<Cached>, bound: int)
    requires Describes(m, fs) && forall g :: g in fs ==> bound <= g.mod
    ensures forall b :: b in Names(fs) ==> b in m && bound <= m[b].mod
  {
    if fs != [] {
      assert fs[0] in fs;
      HeadIsOldest(m, fs[1..], bound);
    }
  }

  lemma CutOneMore(m: Listing, live: set<string>, cut: set<string>, rest: seq<Cached>, last: string, maxSize: int)
    requires CutTo(m, live, cut, rest, last, maxSize) && rest != [] && Sum(rest) > maxSize
    ensures CutTo(m, live, cut + {rest[0].name}, rest[1..], rest[0].name, maxSize)
  {
    var f := rest[0];
    HeadIsOldest(m, rest[1..], f.mod);
    DescribedNames(m, rest);
    assert Names(rest) == Names(rest[1..]) + {f.name};
    assert cut + {f.name} == live - Names(rest[1..]);
  }

  lemma CutIsTrim(m: Listing, live: set<string>, cut: set<string>, rest: seq<Cached>, last: string, maxSize: int)
    requires CutTo(m, live, cut, rest, last, maxSize) && maxSize > 0 && Sum(rest) <= maxSize
    ensures IsTrim(m, live, cut, maxSize)
  {
    DescribedNames(m, rest);
    assert live - cut == Names(rest);
    if cut != {} { assert LastCut(m, live, cut, maxSize, last); }
  }

  // ----- what a rotation leaves -----

  lemma {:induction false} TotalAgrees(m: Listing, t: Listing, s: set<string>)
    requires s <= m.Keys && s <= t.Keys && forall f :: f in s ==> m[f] == t[f]
    ensures Total(m, s) == Total(t, s)
    decreases |s|
  {
    if f :| f in s {
      TotalWithout(m, s, f);
      TotalWithout(t, s, f);
      TotalAgrees(m, t, s - {f});
    }
  }

  /** When every removal succeeds: what is left is unexpired and, if there is a
      cap, fits it; nothing but files that could be read is gone; and no unexpired
      file that went is newer than one that stayed. */
  lemma RotatedWell(m: Listing, cut: set<string>, lifetime: int, maxSize: int, now: int)
    requires IsTrim(m, Live(m, lifetime, now), cut, maxSize)
    ensures var t := Without(m, Stale(m, lifetime, now) + cut, {});
            && Live(t, lifetime, now) == Live(m, lifetime, now) - cut && Stale(t, lifetime, now) == {}
            && (maxSize > 0 ==> Total(t, Live(t, lifetime, now)) <= maxSize)
            && (forall f :: f in m && !Counted(m[f]) ==> f in t && t[f] == m[f])
            && (forall f, g :: f in Live(m, lifetime, now) && f !in t && g in Live(t, lifetime, now) ==>
                  m[f].mod <= t[g].mod)
  {
    var live, stale := Live(m, lifetime, now), Stale(m, lifetime, now);
    var t := Without(m, stale + cut, {});
    assert (stale + cut) - {} == stale + cut;
    assert Live(t, lifetime, now) == live - cut;
    TotalAgrees(m, t, live - cut);
  }

  /** File by file, when every removal succeeds: directories and unreadable entries
      stay, files at least the lifetime old go, and the others stay as they are but for
      those cut, of which there are none without a cap. Under a cap what is left fits
      it, no file cut is newer than one left, and one of those cut would not have fitted. */
  lemma RotatedFiles(m: Listing, cut: set<string>, lifetime: int, maxSize: int, now: int)
    requires IsTrim(m, Live(m, lifetime, now), cut, maxSize)
    ensures var t := Without(m, Stale(m, lifetime, now) + cut, {});
            var files := set f | f in t && !t[f].dir && t[f].statOk;
            && (forall f :: f in t ==> f in m && t[f] == m[f])
            && (forall f :: f in m && (m[f].dir || !m[f].statOk) ==> f in t)
            && (forall f :: f in m && !m[f].dir && m[f].statOk ==>
                  (f in t <==> !(lifetime > 0 && m[f].mod + lifetime <= now) && f !in cut))
            && (maxSize <= 0 ==> cut == {})
            && (maxSize > 0 ==> Total(m, files) <= maxSize)
            && (forall f, g :: f in cut && g in files ==> m[f].mod <= m[g].mod)
            && (cut != {} ==> exists last :: last in cut && Total(m, files + {last}) > maxSize)
  {
    var live, stale := Live(m, lifetime, now), Stale(m, lifetime, now);
    var t := Without(m, stale + cut, {});
    assert (stale + cut) - {} == stale + cut;
    var files := set f | f in t && !t[f].dir && t[f].statOk;
    assert files == live - cut;
    if cut != {} {
      var last :| last in cut && LastCut(m, live, cut, maxSize, last);
      assert Total(m, files + {last}) > maxSize;
    }
  }

  /** With a cap, and no two unexpired files of one age: such a file stays exactly if
      it and all that are newer fit. */
  lemma FileStaysIff(m: Listing, cut: set<string>, lifetime: int, maxSize: int, now: int, f: string)
    requires IsTrim(m, Live(m, lifetime, now), cut, maxSize) && maxSize > 0
    requires f in m && !m[f].dir && m[f].statOk && !(lifetime > 0 && m[f].mod + lifetime <= now)
    requires forall a, b :: a in Live(m, lifetime, now) && b in Live(m, lifetime, now) && a != b ==>
               m[a].mod != m[b].mod
    ensures var newer := set g | g in m && !m[g].dir && m[g].statOk
                                 && !(lifetime > 0 && m[g].mod + lifetime <= now) && m[g].mod >= m[f].mod;
            f in Without(m, Stale(m, lifetime, now) + cut, {}) <==> Total(m, newer) <= maxSize
  {
    RotatedFiles(m, cut, lifetime, maxSize, now);
    TrimIsForced(m, Live(m, lifetime, now), cut, maxSize, f);
    NoOlderIs(m, lifetime, now, f);
  }

  lemma NoOlderIs(m: Listing, lifetime: int, now: int, f: string)
    requires f in Live(m, lifetime, now)
    ensures NoOlder(m, Live(m, lifetime, now), f)
         == set g | g in m && !m[g].dir && m[g].statOk
                    && !(lifetime > 0 && m[g].mod + lifetime <= now) && m[g].mod >= m[f].mod
  {}
}
