/** The union file system of inf24-1/main.cpp: several directories are shown as one, and of several files
    of the same name the one written last is served. */
module UnionView {
  import opened Bytes
  import opened Sums

  /** A path is the sequence of its components. */
  type Path = seq<string>

  datatype Node = File(time: int, content: seq<Byte>) | Dir(time: int, entries: seq<string>) | Other(time: int)

  /** What exists, links resolved. A directory lists its links as well, and a link may lead nowhere. */
  type Tree = map<Path, Node>

  /** A path from the root, or one that the system resolves against the working directory. */
  datatype Location = Absolute(path: Path) | Relative(path: Path)

  ghost predicate Distinct(names: seq<string>) {
    forall i, j :: 0 <= i < j < |names| ==> names[i] != names[j]
  }

  /** Whatever exists is listed, once, by the directory above it. */
  ghost predicate WellFormed(fs: Tree) {
    && (forall p, n: string :: p + [n] in fs ==> p in fs && fs[p].Dir? && n in fs[p].entries)
    && (forall p :: p in fs && fs[p].Dir? ==> Distinct(fs[p].entries))
  }

  // ---------------------------------------------------------------- the newest candidate

  /** Index `i` is the first of the included directories whose candidate exists with the latest time. */
  ghost predicate Newest(fs: Tree, dirs: seq<Path>, relative: Path, i: nat) {
    && i < |dirs| && dirs[i] + relative in fs
    && (forall j :: 0 <= j < |dirs| && dirs[j] + relative in fs ==>
          fs[dirs[j] + relative].time <= fs[dirs[i] + relative].time)
    && (forall j :: 0 <= j < i && dirs[j] + relative in fs ==>
          fs[dirs[j] + relative].time < fs[dirs[i] + relative].time)
  }

  ghost predicate Resolves(fs: Tree, dirs: seq<Path>, relative: Path) {
    exists i :: 0 <= i < |dirs| && dirs[i] + relative in fs
  }

  /** What one more directory changes. */
  lemma NewestNext(fs: Tree, dirs: seq<Path>, dir: Path, relative: Path, at: nat)
    ensures Resolves(fs, dirs + [dir], relative) <==> Resolves(fs, dirs, relative) || dir + relative in fs
    ensures Resolves(fs, dirs, relative) && Newest(fs, dirs, relative, at) ==>
              Newest(fs, dirs + [dir], relative,
                     if dir + relative in fs && fs[dirs[at] + relative].time < fs[dir + relative].time
                     then |dirs| else at)
    ensures !Resolves(fs, dirs, relative) && dir + relative in fs ==> Newest(fs, dirs + [dir], relative, |dirs|)
  {
    var after := dirs + [dir];
    assert after[|dirs|] == dir && forall j :: 0 <= j < |dirs| ==> after[j] == dirs[j];
    if Resolves(fs, dirs, relative) {
      var i :| 0 <= i < |dirs| && dirs[i] + relative in fs;
      assert after[i] + relative in fs;
    }
    if dir + relative in fs {
      assert after[|dirs|] + relative in fs;
    }
  }

  /** `GetRealPathAndLastTime`; `lastTime` starts with whatever is in memory. */
  method GetRealPath(fs: Tree, dirs: seq<Path>, relative: Path, garbage: int) returns (maxPath: Location, ghost at: nat)
    ensures Resolves(fs, dirs, relative) ==> Newest(fs, dirs, relative, at) && maxPath == Absolute(dirs[at] + relative)
    ensures !Resolves(fs, dirs, relative) ==> maxPath == Relative(relative)
  {
    var lastTime := garbage;
    var isExist := false;
    maxPath, at := Relative(relative), 0;
    for n := 0 to |dirs|
      invariant isExist <==> Resolves(fs, dirs[..n], relative)
      invariant isExist ==> Newest(fs, dirs[..n], relative, at) && maxPath == Absolute(dirs[at] + relative)
                            && lastTime == fs[maxPath.path].time
      invariant !isExist ==> maxPath == Relative(relative)
    {
      ghost var before, after := dirs[..n], dirs[..n + 1];
      assert after == before + [dirs[n]];
      var absolutePath := dirs[n] + relative;
      if relative == [] {
        absolutePath := dirs[n];
      }
      assert absolutePath == dirs[n] + relative == after[n] + relative;
      NewestNext(fs, before, dirs[n], relative, at);
      if absolutePath in fs {
        if fs[absolutePath].time > lastTime || !isExist {
          isExist := true;
          lastTime := fs[absolutePath].time;
          maxPath, at := Absolute(absolutePath), n;
        }
      }
    }
    assert dirs[..|dirs|] == dirs;
  }

  // ---------------------------------------------------------------- directory listings

  /** The names that the included directory at `p` contributes. */
  function EntriesAt(fs: Tree, p: Path): seq<string> {
    if p in fs && fs[p].Dir? then fs[p].entries else []
  }

  /** Appends the names not seen before. */
  function Merge(seen: seq<string>, names: seq<string>): seq<string>
    decreases |names|
  {
    if names == [] then seen
    else Merge(if names[0] in seen then seen else seen + [names[0]], names[1..])
  }

  /** The names of all included directories, each where it first comes up. */
  function Listing(fs: Tree, dirs: seq<Path>, relative: Path): seq<string> {
    if dirs == [] then []
    else Merge(Listing(fs, dirs[..|dirs| - 1], relative), EntriesAt(fs, dirs[|dirs| - 1] + relative))
  }

  lemma {:induction false} MergeSpec(seen: seq<string>, names: seq<string>)
    requires Distinct(seen)
    ensures Distinct(Merge(seen, names)) && seen <= Merge(seen, names)
    ensures forall n :: n in Merge(seen, names) <==> n in seen || n in names
    decreases |names|
  {
    if names != [] {
      MergeSpec(if names[0] in seen then seen else seen + [names[0]], names[1..]);
    }
  }

  lemma {:induction false} MergeSnoc(seen: seq<string>, names: seq<string>, n: string)
    ensures Merge(seen, names + [n]) == var m := Merge(seen, names); if n in m then m else m + [n]
    decreases |names|
  {
    if names == [] {
      assert names + [n] == [n];
    } else {
      assert (names + [n])[1..] == names[1..] + [n];
      MergeSnoc(if names[0] in seen then seen else seen + [names[0]], names[1..], n);
    }
  }

  /** There is a directory at `p`, and it holds the name `n`. */
  ghost predicate HasEntry(fs: Tree, p: Path, n: string) {
    p in fs && fs[p].Dir? && n in fs[p].entries
  }

  ghost predicate ListedBy(fs: Tree, dirs: seq<Path>, relative: Path, n: string) {
    exists i :: 0 <= i < |dirs| && HasEntry(fs, dirs[i] + relative, n)
  }

  /** Every name of an included directory is listed, and none twice. */
  lemma {:induction false} ListingSpec(fs: Tree, dirs: seq<Path>, relative: Path)
    ensures Distinct(Listing(fs, dirs, relative))
    ensures forall n :: n in Listing(fs, dirs, relative) <==> ListedBy(fs, dirs, relative, n)
    decreases |dirs|
  {
    if dirs != [] {
      var last := |dirs| - 1;
      ListingSpec(fs, dirs[..last], relative);
      MergeSpec(Listing(fs, dirs[..last], relative), EntriesAt(fs, dirs[last] + relative));
      forall n ensures ListedBy(fs, dirs, relative, n)
                       <==> ListedBy(fs, dirs[..last], relative, n) || n in EntriesAt(fs, dirs[last] + relative) {
        if ListedBy(fs, dirs[..last], relative, n) {
          var i :| 0 <= i < last && HasEntry(fs, dirs[..last][i] + relative, n);
          assert HasEntry(fs, dirs[i] + relative, n);
        }
        if ListedBy(fs, dirs, relative, n) {
          var i :| 0 <= i < |dirs| && HasEntry(fs, dirs[i] + relative, n);
          if i < last {
            assert HasEntry(fs, dirs[..last][i] + relative, n);
          }
        }
      }
    }
  }

  /** In the order of `names`, `x` comes up, and `y` has not come up by then. */
  ghost predicate Precedes(names: seq<string>, x: string, y: string) {
    exists e :: 0 <= e < |names| && names[e] == x && y !in names[..e + 1]
  }

  /** In one of the included directories `x` comes up, and `y` has not come up by then, there or before. */
  ghost predicate ComesBefore(fs: Tree, dirs: seq<Path>, relative: Path, x: string, y: string) {
    exists d :: 0 <= d < |dirs| && dirs[d] + relative in fs && fs[dirs[d] + relative].Dir?
                && Precedes(fs[dirs[d] + relative].entries, x, y)
                && forall c :: 0 <= c < d ==> !HasEntry(fs, dirs[c] + relative, y)
  }

  lemma PrecedesLonger(names: seq<string>, n: string, x: string, y: string)
    requires Precedes(names, x, y)
    ensures Precedes(names + [n], x, y)
  {
    var e :| 0 <= e < |names| && names[e] == x && y !in names[..e + 1];
    assert (names + [n])[..e + 1] == names[..e + 1];
  }

  lemma LastPrecedes(names: seq<string>, x: string, y: string)
    requires x in names && y !in names
    ensures Precedes(names, x, y)
  {
    var e :| 0 <= e < |names| && names[e] == x;
    assert forall z :: z in names[..e + 1] ==> z in names;
  }

  lemma NewIsAmong(seen: seq<string>, names: seq<string>, i: nat)
    requires Distinct(seen) && |seen| <= i < |Merge(seen, names)|
    ensures Merge(seen, names)[i] in names
  {
    MergeSpec(seen, names);
    var m := Merge(seen, names);
    assert forall k :: 0 <= k < |seen| ==> seen[k] == m[k];
  }

  /** Names seen before stay in front, new ones follow in the order in which they first come up. */
  lemma {:induction false} MergeOrder(seen: seq<string>, names: seq<string>, i: nat, j: nat)
    requires Distinct(seen) && i < j < |Merge(seen, names)| && |seen| <= j
    ensures Merge(seen, names)[j] !in seen
    ensures |seen| <= i ==> Precedes(names, Merge(seen, names)[i], Merge(seen, names)[j])
    decreases |names|
  {
    MergeSpec(seen, names);
    if names != [] {
      var shorter, last := names[..|names| - 1], names[|names| - 1];
      assert names == shorter + [last];
      MergeSnoc(seen, shorter, last);
      MergeSpec(seen, shorter);
      var m := Merge(seen, shorter);
      if j < |m| {
        MergeOrder(seen, shorter, i, j);
        if |seen| <= i {
          PrecedesLonger(shorter, last, m[i], m[j]);
        }
      } else if |seen| <= i {
        NewIsAmong(seen, shorter, i);
        LastPrecedes(shorter, m[i], last);
        PrecedesLonger(shorter, last, m[i], last);
      }
    }
  }

  lemma MoreDirs(fs: Tree, dirs: seq<Path>, dir: Path, relative: Path, x: string, y: string)
    requires ComesBefore(fs, dirs, relative, x, y)
    ensures ComesBefore(fs, dirs + [dir], relative, x, y)
  {
    var d :| 0 <= d < |dirs| && dirs[d] + relative in fs && fs[dirs[d] + relative].Dir?
             && Precedes(fs[dirs[d] + relative].entries, x, y)
             && forall c :: 0 <= c < d ==> !HasEntry(fs, dirs[c] + relative, y);
    assert (dirs + [dir])[d] == dirs[d];
  }

  lemma ListedComesBefore(fs: Tree, dirs: seq<Path>, relative: Path, x: string, y: string)
    requires ListedBy(fs, dirs, relative, x) && !ListedBy(fs, dirs, relative, y)
    ensures ComesBefore(fs, dirs, relative, x, y)
  {
    var d :| 0 <= d < |dirs| && HasEntry(fs, dirs[d] + relative, x);
    LastPrecedes(fs[dirs[d] + relative].entries, x, y);
  }

  lemma NewNamesOrder(fs: Tree, dirs: seq<Path>, dir: Path, relative: Path, x: string, y: string)
    requires Precedes(EntriesAt(fs, dir + relative), x, y) && !ListedBy(fs, dirs, relative, y)
    ensures ComesBefore(fs, dirs + [dir], relative, x, y)
  {
    var after := dirs + [dir];
    assert after[|dirs|] == dir && forall c :: 0 <= c < |dirs| ==> after[c] == dirs[c];
  }

  /** The names that one more directory adds come after those before, in its own order. */
  lemma AddedOrder(fs: Tree, dirs: seq<Path>, dir: Path, relative: Path, i: nat, j: nat)
    requires var m := Merge(Listing(fs, dirs, relative), EntriesAt(fs, dir + relative));
             |Listing(fs, dirs, relative)| <= j < |m| && i < j
    ensures var m := Merge(Listing(fs, dirs, relative), EntriesAt(fs, dir + relative));
            ComesBefore(fs, dirs + [dir], relative, m[i], m[j])
  {
    var seen, names := Listing(fs, dirs, relative), EntriesAt(fs, dir + relative);
    var m := Merge(seen, names);
    ListingSpec(fs, dirs, relative);
    MergeOrder(seen, names, i, j);
    MergeSpec(seen, names);
    if i < |seen| {
      assert m[i] == seen[i];
      ListedComesBefore(fs, dirs, relative, m[i], m[j]);
      MoreDirs(fs, dirs, dir, relative, m[i], m[j]);
    } else {
      NewNamesOrder(fs, dirs, dir, relative, m[i], m[j]);
    }
  }

  lemma {:induction false} SeenStay(seen: seq<string>, names: seq<string>, i: nat, j: nat)
    requires i < |seen| && j < |seen|
    ensures |seen| <= |Merge(seen, names)|
    ensures Merge(seen, names)[i] == seen[i] && Merge(seen, names)[j] == seen[j]
    decreases |names|
  {
    if names != [] {
      SeenStay(if names[0] in seen then seen else seen + [names[0]], names[1..], i, j);
    }
  }

  /** The listing is in the order in which the names first come up, directory by directory. */
  lemma {:induction false} ListingOrder(fs: Tree, dirs: seq<Path>, relative: Path, i: nat, j: nat)
    requires i < j < |Listing(fs, dirs, relative)|
    ensures ComesBefore(fs, dirs, relative, Listing(fs, dirs, relative)[i], Listing(fs, dirs, relative)[j])
    decreases |dirs|
  {
    var before, dir := dirs[..|dirs| - 1], dirs[|dirs| - 1];
    var seen, all := Listing(fs, before, relative), Listing(fs, dirs, relative);
    assert dirs == before + [dir];
    if j < |seen| {
      ListingOrder(fs, before, relative, i, j);
      SeenStay(seen, EntriesAt(fs, dir + relative), i, j);
      MoreDirs(fs, before, dir, relative, all[i], all[j]);
    } else {
      AddedOrder(fs, before, dir, relative, i, j);
    }
  }

  /** A link of the directory at `p` that leads nowhere. */
  ghost predicate Dangles(fs: Tree, p: Path, n: string) {
    HasEntry(fs, p, n) && p + [n] !in fs
  }

  /** A name of the directory at `p` that leads to a file. */
  ghost predicate Leads(fs: Tree, p: Path, n: string) {
    HasEntry(fs, p, n) && p + [n] in fs
  }

  ghost predicate DanglesBy(fs: Tree, dirs: seq<Path>, relative: Path, n: string) {
    exists i :: 0 <= i < |dirs| && Dangles(fs, dirs[i] + relative, n)
  }

  ghost predicate LeadsBy(fs: Tree, dirs: seq<Path>, relative: Path, n: string) {
    exists i :: 0 <= i < |dirs| && Leads(fs, dirs[i] + relative, n)
  }

  lemma ResolvesIffLeads(fs: Tree, dirs: seq<Path>, relative: Path, n: string)
    requires WellFormed(fs)
    ensures Resolves(fs, dirs, relative + [n]) <==> LeadsBy(fs, dirs, relative, n)
  {
    forall i | 0 <= i < |dirs|
      ensures dirs[i] + (relative + [n]) in fs <==> Leads(fs, dirs[i] + relative, n) {
      assert dirs[i] + (relative + [n]) == dirs[i] + relative + [n];
    }
  }

  /** A name is listed that cannot be looked up exactly if it is a dangling link in some included directory
      and a file in none. */
  lemma ListedInVainIff(fs: Tree, dirs: seq<Path>, relative: Path, n: string)
    requires WellFormed(fs)
    ensures n in Listing(fs, dirs, relative) && !Resolves(fs, dirs, relative + [n])
            <==> DanglesBy(fs, dirs, relative, n) && !LeadsBy(fs, dirs, relative, n)
    ensures Resolves(fs, dirs, relative + [n]) ==> n in Listing(fs, dirs, relative)
  {
    ListingSpec(fs, dirs, relative);
    ResolvesIffLeads(fs, dirs, relative, n);
    assert forall i :: 0 <= i < |dirs| ==>
      (HasEntry(fs, dirs[i] + relative, n)
       <==> Dangles(fs, dirs[i] + relative, n) || Leads(fs, dirs[i] + relative, n));
    assert ListedBy(fs, dirs, relative, n)
      <==> DanglesBy(fs, dirs, relative, n) || LeadsBy(fs, dirs, relative, n);
  }

  /** The listing of a directory names exactly what can be looked up in it, if and only if every name that
      is a dangling link in one included directory is a file in another. */
  lemma ListedIffResolves(fs: Tree, dirs: seq<Path>, relative: Path)
    requires WellFormed(fs)
    ensures (forall n :: n in Listing(fs, dirs, relative) <==> Resolves(fs, dirs, relative + [n]))
            <==> forall n :: DanglesBy(fs, dirs, relative, n) ==> LeadsBy(fs, dirs, relative, n)
  {
    forall n
      ensures (n in Listing(fs, dirs, relative) <==> Resolves(fs, dirs, relative + [n]))
              <==> (DanglesBy(fs, dirs, relative, n) ==> LeadsBy(fs, dirs, relative, n)) {
      ListedInVainIff(fs, dirs, relative, n);
    }
  }

  /** In particular listing and lookup agree in a tree without dangling links. */
  lemma NoDanglingAgrees(fs: Tree, dirs: seq<Path>, relative: Path)
    requires WellFormed(fs) && forall p, n :: !Dangles(fs, p, n)
    ensures forall n :: n in Listing(fs, dirs, relative) <==> Resolves(fs, dirs, relative + [n])
  {
    ListedIffResolves(fs, dirs, relative);
  }

  /** Two directories that hold the name `x` alone, a link that leads nowhere in the first. */
  lemma OneNameTwice(fs: Tree, a: Path, b: Path, x: string)
    requires WellFormed(fs) && EntriesAt(fs, a) == EntriesAt(fs, b) == [x] && a + [x] !in fs
    ensures DanglesBy(fs, [a, b], [], x) && x in Listing(fs, [a, b], [])
    ensures (forall n :: n in Listing(fs, [a, b], []) <==> Resolves(fs, [a, b], [] + [n])) <==> b + [x] in fs
  {
    var dirs := [a, b];
    assert dirs[0] + [] == a && dirs[1] + [] == b;
    assert Dangles(fs, dirs[0] + [], x);
    assert LeadsBy(fs, dirs, [], x) <==> b + [x] in fs;
    assert forall n :: DanglesBy(fs, dirs, [], n) ==> n == x;
    ListedIffResolves(fs, dirs, []);
    ListedInVainIff(fs, dirs, [], x);
    ListingSpec(fs, dirs, []);
    assert ListedBy(fs, dirs, [], x);
  }

  /** `/a` and `/b` hold a link `x`; if `covered`, the one in `/b` leads to a file. */
  function TwoLinks(covered: bool): Tree {
    var links: Tree := map[[] := Dir(0, ["a", "b"]), ["a"] := Dir(1, ["x"]), ["b"] := Dir(2, ["x"])];
    if covered then links[["b", "x"] := File(3, [])] else links
  }

  lemma ParentOf(p: Path, n: string)
    ensures |p + [n]| == 1 ==> p == [] && p + [n] == [n]
    ensures |p + [n]| == 2 ==> p + [n] == [p[0], n] && p == [p[0]]
  {
  }

  lemma TwoLinksParents(covered: bool, p: Path, n: string)
    requires p + [n] in TwoLinks(covered)
    ensures (p == [] && n in ["a", "b"]) || (p == ["b"] && n == "x")
  {
    ParentOf(p, n);
  }

  lemma TwoLinksWellFormed(covered: bool)
    ensures WellFormed(TwoLinks(covered))
  {
    var fs := TwoLinks(covered);
    forall p, n: string | p + [n] in fs ensures p in fs && fs[p].Dir? && n in fs[p].entries {
      TwoLinksParents(covered, p, n);
    }
  }

  lemma TwoLinksEntries(covered: bool)
    ensures var fs := TwoLinks(covered);
            && EntriesAt(fs, ["a"]) == EntriesAt(fs, ["b"]) == ["x"]
            && ["a", "x"] !in fs && (["b", "x"] in fs <==> covered)
  {
  }

  /** With both links dangling, a name is listed that cannot be looked up; with one of them, listing and
      lookup agree. */
  lemma DanglingIsListed(covered: bool)
    ensures var fs, dirs := TwoLinks(covered), [["a"], ["b"]];
            && WellFormed(fs) && DanglesBy(fs, dirs, [], "x") && "x" in Listing(fs, dirs, [])
            && ((forall n :: n in Listing(fs, dirs, []) <==> Resolves(fs, dirs, [] + [n])) <==> covered)
  {
    TwoLinksWellFormed(covered);
    TwoLinksEntries(covered);
    assert ["a"] + ["x"] == ["a", "x"] && ["b"] + ["x"] == ["b", "x"];
    OneNameTwice(TwoLinks(covered), ["a"], ["b"], "x");
  }

  /** The loop over one directory. */
  method EmitEntries(entries: seq<string>, emitted0: seq<string>, oneNames0: set<string>, ghost before: seq<string>)
    returns (emitted: seq<string>, oneNames: set<string>)
    requires emitted0 == [".", ".."] + before && forall n :: n in oneNames0 <==> n in before
    ensures emitted == [".", ".."] + Merge(before, entries)
    ensures forall n :: n in oneNames <==> n in Merge(before, entries)
  {
    emitted, oneNames := emitted0, oneNames0;
    for k := 0 to |entries|
      invariant emitted == [".", ".."] + Merge(before, entries[..k])
      invariant forall n :: n in oneNames <==> n in Merge(before, entries[..k])
    {
      var fileName := entries[k];
      MergeSnoc(before, entries[..k], fileName);
      assert entries[..k + 1] == entries[..k] + [fileName];
      if fileName !in oneNames {
        oneNames := oneNames + {fileName};
        emitted := emitted + [fileName];
      }
    }
    assert entries[..|entries|] == entries;
  }

  /** `ReadDirCallback`: the names passed to `filler`. */
  method ReadDir(fs: Tree, dirs: seq<Path>, relative: Path) returns (emitted: seq<string>)
    ensures emitted == [".", ".."] + Listing(fs, dirs, relative)
    ensures Distinct(emitted[2..]) && forall n :: n in emitted[2..] <==> ListedBy(fs, dirs, relative, n)
  {
    emitted := [".", ".."];
    var oneNames: set<string> := {};
    for i := 0 to |dirs|
      invariant emitted == [".", ".."] + Listing(fs, dirs[..i], relative)
      invariant forall n :: n in oneNames <==> n in Listing(fs, dirs[..i], relative)
    {
      ghost var before := Listing(fs, dirs[..i], relative);
      assert dirs[..i + 1][..i] == dirs[..i];
      var absolutePath := dirs[i] + relative;
      if absolutePath in fs && fs[absolutePath].Dir? {
        emitted, oneNames := EmitEntries(fs[absolutePath].entries, emitted, oneNames, before);
      }
    }
    assert dirs[..|dirs|] == dirs;
    ListingSpec(fs, dirs, relative);
    assert emitted[2..] == Listing(fs, dirs, relative);
  }

  // ---------------------------------------------------------------- reading

  /** What reading the node at `p` gives: nothing unless it is a regular file. */
  function Served(fs: Tree, p: Path, offset: nat, size: nat): (r: seq<Byte>)
    ensures p in fs && fs[p].File? && offset < |fs[p].content| ==>
              && |r| == (if size <= |fs[p].content| - offset then size else |fs[p].content| - offset)
              && forall n :: 0 <= n < |r| ==> r[n] == fs[p].content[offset + n]
  {
    if p in fs && fs[p].File? then Slice(fs[p].content, offset, size) else []
  }

  /** A path that no included directory has reads as empty exactly if the working directory has no regular
      file there, or the read starts at or behind its end, or nothing is asked for. */
  lemma ServedIsEmptyIff(fs: Tree, p: Path, offset: nat, size: nat)
    ensures Served(fs, p, offset, size) == []
            <==> p !in fs || !fs[p].File? || |fs[p].content| <= offset || size == 0
  {
  }

  /** Bytes of the working directory are served for a path that no included directory has. */
  ghost predicate ServesForeign(fs: Tree, dirs: seq<Path>, cwd: Path, relative: Path, offset: nat, size: nat) {
    !Resolves(fs, dirs, relative) && Served(fs, cwd + relative, offset, size) != []
  }

  ghost predicate ForeignFile(fs: Tree, dirs: seq<Path>, cwd: Path, relative: Path) {
    var p := cwd + relative;
    p in fs && fs[p].File? && fs[p].content != [] && !Resolves(fs, dirs, relative)
  }

  /** No read ever serves a file from outside exactly if the working directory has no file with contents
      whose path no included directory has. */
  lemma NeverForeignIff(fs: Tree, dirs: seq<Path>, cwd: Path)
    ensures (forall relative, offset, size :: !ServesForeign(fs, dirs, cwd, relative, offset, size))
            <==> forall relative :: !ForeignFile(fs, dirs, cwd, relative)
  {
    forall relative, offset, size | ServesForeign(fs, dirs, cwd, relative, offset, size)
      ensures ForeignFile(fs, dirs, cwd, relative) {
      ServedIsEmptyIff(fs, cwd + relative, offset, size);
    }
    forall relative | ForeignFile(fs, dirs, cwd, relative)
      ensures ServesForeign(fs, dirs, cwd, relative, 0, 1) {
      ServedIsEmptyIff(fs, cwd + relative, 0, 1);
    }
  }

  /** From an included directory nothing is served from outside. */
  lemma IncludedCwdIsSafe(fs: Tree, dirs: seq<Path>, cwd: Path)
    requires cwd in dirs
    ensures forall relative, offset, size :: !ServesForeign(fs, dirs, cwd, relative, offset, size)
  {
    var i :| 0 <= i < |dirs| && dirs[i] == cwd;
    NeverForeignIff(fs, dirs, cwd);
    forall relative ensures !ForeignFile(fs, dirs, cwd, relative) {
      if cwd + relative in fs {
        assert dirs[i] + relative in fs;
      }
    }
  }

  /** The file `/f` is served although only `/a` is included. */
  lemma ForeignFileServed()
    ensures var fs: Tree := map[[] := Dir(0, ["f", "a"]), ["f"] := File(1, [65]), ["a"] := Dir(2, [])];
            WellFormed(fs) && ServesForeign(fs, [["a"]], [], ["f"], 0, 1)
  {
    var fs: Tree := map[[] := Dir(0, ["f", "a"]), ["f"] := File(1, [65]), ["a"] := Dir(2, [])];
    forall p, n: string | p + [n] in fs ensures p == [] && n in ["f", "a"] {
      assert |p + [n]| == 1 && (p + [n])[0] == n;
    }
    assert [] + ["f"] == ["f"];
    assert forall i :: 0 <= i < 1 ==> [["a"]][i] + ["f"] == ["a", "f"];
  }

  /** The newest candidate is a single one. */
  lemma NewestUnique(fs: Tree, dirs: seq<Path>, relative: Path, i: nat, j: nat)
    requires Newest(fs, dirs, relative, i) && Newest(fs, dirs, relative, j)
    ensures i == j
  {
  }

  /** The path that is opened: the newest candidate, or else the one in the working directory. */
  ghost predicate Opens(fs: Tree, dirs: seq<Path>, cwd: Path, relative: Path, p: Path) {
    && (Resolves(fs, dirs, relative) ==> exists i: nat :: Newest(fs, dirs, relative, i) && p == dirs[i] + relative)
    && (!Resolves(fs, dirs, relative) ==> p == cwd + relative)
  }

  lemma OpensOne(fs: Tree, dirs: seq<Path>, cwd: Path, relative: Path, p: Path, q: Path)
    requires Opens(fs, dirs, cwd, relative, p) && Opens(fs, dirs, cwd, relative, q)
    ensures p == q
  {
    if Resolves(fs, dirs, relative) {
      var i: nat :| Newest(fs, dirs, relative, i) && p == dirs[i] + relative;
      var j: nat :| Newest(fs, dirs, relative, j) && q == dirs[j] + relative;
      NewestUnique(fs, dirs, relative, i, j);
    }
  }

  /** `ReadCallback`. A path that no included directory has is looked up in the working directory. */
  method ReadFile(fs: Tree, dirs: seq<Path>, cwd: Path, relative: Path, size: nat, offset: nat, garbage: int)
    returns (code: nat, buf: seq<Byte>, ghost source: Path)
    ensures Opens(fs, dirs, cwd, relative, source) && code == |buf|
    ensures source in fs && fs[source].File? ==>
              var content := fs[source].content;
              && |buf| == (if |content| <= offset then 0 else if size <= |content| - offset then size
                           else |content| - offset)
              && forall n :: 0 <= n < |buf| ==> buf[n] == content[offset + n]
    ensures source !in fs || !fs[source].File? ==> buf == []
    ensures buf == Served(fs, source, offset, size)
  {
    var maxPath, at := GetRealPath(fs, dirs, relative, garbage);
    var realPath := if maxPath.Absolute? then maxPath.path else cwd + maxPath.path;
    source := realPath;
    if realPath !in fs || !fs[realPath].File? {
      return 0, [], source;
    }
    var len := |fs[realPath].content|;
    if len <= offset {
      return 0, [], source;
    }
    code := if offset + size <= len then size else len - offset;
    buf := fs[realPath].content[offset..offset + code];
  }

  /** The first `n` bytes, or as many as there are. */
  function Prefix(content: seq<Byte>, n: nat): seq<Byte> {
    if n <= |content| then content[..n] else content
  }

  lemma PrefixGrows(content: seq<Byte>, n: nat, more: nat, buf: seq<Byte>)
    requires |buf| == var at := |Prefix(content, n)|;
                      if |content| <= at then 0 else if more <= |content| - at then more else |content| - at
    requires forall k :: 0 <= k < |buf| ==> buf[k] == content[|Prefix(content, n)| + k]
    ensures Prefix(content, n) + buf == Prefix(content, n + more)
  {
  }

  ghost function Content(fs: Tree, p: Path): seq<Byte> {
    if p in fs && fs[p].File? then fs[p].content else []
  }

  /** The next read of a run of reads. */
  method ReadNext(fs: Tree, dirs: seq<Path>, cwd: Path, relative: Path, chunk: nat, data: seq<Byte>, garbage: int,
                  ghost source: Path, ghost total: nat)
    returns (longer: seq<Byte>)
    requires Opens(fs, dirs, cwd, relative, source) && data == Prefix(Content(fs, source), total)
    ensures longer == Prefix(Content(fs, source), total + chunk)
  {
    var code, buf, again := ReadFile(fs, dirs, cwd, relative, chunk, |data|, garbage);
    OpensOne(fs, dirs, cwd, relative, source, again);
    PrefixGrows(Content(fs, source), total, chunk, buf);
    longer := data + buf;
  }

  /** Any run of reads, each starting where the last one ended, adds up to the file that is opened. */
  method ReadInChunks(fs: Tree, dirs: seq<Path>, cwd: Path, relative: Path, chunks: seq<nat>, garbage: int,
                      ghost source: Path)
    returns (data: seq<Byte>)
    requires Opens(fs, dirs, cwd, relative, source)
    ensures source in fs && fs[source].File? ==>
              data == if Sum(chunks) <= |fs[source].content| then fs[source].content[..Sum(chunks)]
                      else fs[source].content
    ensures source !in fs || !fs[source].File? ==> data == []
  {
    data := [];
    assert chunks[..0] == [];
    for n := 0 to |chunks|
      invariant data == Prefix(Content(fs, source), Sum(chunks[..n]))
    {
      SumPrefix(chunks, n);
      data := ReadNext(fs, dirs, cwd, relative, chunks[n], data, garbage, source, Sum(chunks[..n]));
    }
    assert chunks[..|chunks|] == chunks;
  }
}
