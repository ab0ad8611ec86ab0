/**
 * lookup_path (kernel/fs/ext2/directoryController.c) on the volumes themselves: directories are searched block by
 * block, link targets are read from inodes or blocks, and mounts redirect between volumes.
 */
module PathLookup {
  import opened Blocks
  import opened BlockTree
  import opened Volumes
  import opened FileBlocks
  import opened FileSystem
  import opened DirBlock
  import opened DirFile
  import opened DirTree
  import opened Namespace
  import opened NamespaceOps
  import opened Symlinks
  import opened Paths

  // ----- volumes as path lookup sees them

  /** The link can be read, and its target is a C string. */
  ghost predicate LinkReady(v: Vol, n: nat) {
    && n in v.trees && n in v.itab && n != ROOT_INODE && Plain(LinkTarget(v, n))
    && (v.itab[n].sectors == 0 ==> v.itab[n].size <= MAX_SYMLINK_LEN && |v.itab[n].ptr| == 15)
    && (v.itab[n].sectors == 0 ==> forall i :: 0 <= i < |v.itab[n].ptr| ==> IsWord(v.itab[n].ptr[i]))
    && (v.itab[n].sectors != 0 ==> 0 < v.itab[n].size < 4096 && Slot(v.trees[n], 0) != 0)
  }

  ghost predicate LinksReady(v: Vol) {
    forall n :: n in v.trees && KindOf(v, n) == Symlink ==> LinkReady(v, n)
  }

  /** What a volume stores: its directories, and its links with their targets. */
  ghost function PartitionOf(v: Vol): Partition {
    Partition(Abs(v).dirs, map n | n in v.trees && KindOf(v, n) == Symlink :: LinkTarget(v, n))
  }

  /** A volume that can be mounted and walked. */
  ghost predicate Readable(fs: Volume)
    reads fs, fs.blocks, fs.inodes
  {
    NsValid(fs) && EntriesLive(TreeIn(fs)) && ROOT_INODE in TreeIn(fs).dirs && LinksReady(View(fs))
  }

  /** w is what these volumes store, and mountpoints are directories of the root volume. */
  ghost predicate Mirrors(vols: seq<Volume>, w: World)
    reads vols, set v | v in vols :: v.blocks, set v | v in vols :: v.inodes
  {
    && Sound(w) && |vols| == |w.parts|
    && (forall i :: 0 <= i < |vols| ==> Readable(vols[i]) && w.parts[i] == PartitionOf(View(vols[i])))
    && (forall i :: 0 <= i < |w.parts| && w.mountpoint[i] != 0 ==> w.mountpoint[i] in w.parts[w.root].dirs)
  }

  /** A live inode of the root volume or of a mounted one. */
  ghost predicate Known(vols: seq<Volume>, w: World, n: Node)
    reads vols
  {
    n.fs < |vols| && n.ino in vols[n.fs].trees && Sound(w) && |vols| == |w.parts| && (n.fs == w.root || w.mountpoint[n.fs] != 0)
  }

  lemma DirKnown(fs: Volume, d: nat)
    requires Readable(fs) && d in PartitionOf(View(fs)).dirs
    ensures d in fs.trees
  {
    hide Valid, AllDirs, LinksReady, EntriesLive;
  }

  /** A live inode of a volume, as the partition shows it. */
  lemma PartitionAt(fs: Volume, n: nat)
    requires Readable(fs) && n in fs.trees
    ensures n in fs.itab && n != 0
    ensures n in PartitionOf(View(fs)).dirs <==> fs.itab[n].kind == Directory
    ensures n in PartitionOf(View(fs)).links <==> fs.itab[n].kind == Symlink
    ensures n in PartitionOf(View(fs)).links ==> PartitionOf(View(fs)).links[n] == LinkTarget(View(fs), n) && LinkReady(View(fs), n)
  {
    hide Valid, AllDirs, LinkTarget, EntriesLive, LinkReady, Abs;
    AbsDir(View(fs), n);
    LiveInTable(fs, n);
    if fs.itab[n].kind == Symlink { assert KindOf(View(fs), n) == Symlink; }
  }

  /** A name in a directory, as the partition shows it. */
  lemma PartitionName(fs: Volume, d: nat, x: Name)
    requires Readable(fs) && d in PartitionOf(View(fs)).dirs
    ensures IsDir(View(fs), d) && Valid(fs)
    ensures x in PartitionOf(View(fs)).dirs[d] <==> Find(Entries(View(fs), d), x) != 0
    ensures x in PartitionOf(View(fs)).dirs[d] ==>
              PartitionOf(View(fs)).dirs[d][x] == Find(Entries(View(fs), d), x) && PartitionOf(View(fs)).dirs[d][x] in fs.trees
  {
    hide Valid, AllDirs, Abs, LinksReady, IsDir, Entries, Find;
    AbsName(View(fs), d, x);
    if x in TreeIn(fs).dirs[d] { AbsDir(View(fs), TreeIn(fs).dirs[d][x]); }
  }

  // ----- one component

  /** return_mnt_root. */
  method MntRoot(mountpoint: seq<nat>, root: nat, n: Node, ghost w: World) returns (out: Node)
    requires w.mountpoint == mountpoint && w.root == root
    ensures out == Enter(w, n)
  {
    if n.fs != root { return n; }
    for part := 0 to |mountpoint|
      invariant MountedOn(w, n.ino, 0) == MountedOn(w, n.ino, part)
    {
      if mountpoint[part] == n.ino { return Node(part, ROOT_INODE); }
    }
    return n;
  }

  /** return_mnt_mountpoint: the root of a mounted partition never comes out, and what is live stays live. */
  method MntMountpoint(mountpoint: seq<nat>, root: nat, n: Node, ghost vols: seq<Volume>, ghost w: World) returns (out: Node)
    requires Mirrors(vols, w) && Known(vols, w, n) && w.mountpoint == mountpoint && w.root == root
    ensures Normal(w, out) && Known(vols, w, out) && out == Leave(w, n)
    ensures Normal(w, n) ==> out == n
    ensures !Normal(w, n) ==> out.fs == root && out.ino in w.parts[root].dirs && Enter(w, out).ino == ROOT_INODE
  {
    hide Readable, PartitionOf;
    LeaveKnown(vols, w, n);
    if n.fs == root || n.ino != ROOT_INODE { return n; }
    MountedFirst(w, mountpoint[n.fs], 0);
    return Node(root, mountpoint[n.fs]);
  }

  lemma EnterKnown(vols: seq<Volume>, w: World, n: Node)
    requires Mirrors(vols, w) && Known(vols, w, n)
    ensures Known(vols, w, Enter(w, n)) && Readable(vols[Enter(w, n).fs]) && w.parts[Enter(w, n).fs] == PartitionOf(View(vols[Enter(w, n).fs]))
  {
    hide Readable, PartitionOf;
    PartitionAt(vols[n.fs], n.ino);
    MountedFirst(w, n.ino, 0);
    var e := Enter(w, n);
    assert Readable(vols[e.fs]);
    assert ROOT_INODE in vols[e.fs].trees by { RootLive(vols[e.fs]); }
  }

  lemma RootLive(fs: Volume)
    requires Readable(fs)
    ensures ROOT_INODE in fs.trees
  {
    hide Valid, AllDirs, LinksReady, EntriesLive;
  }

  lemma LeaveKnown(vols: seq<Volume>, w: World, n: Node)
    requires Mirrors(vols, w) && Known(vols, w, n)
    ensures Known(vols, w, Leave(w, n))
  {
    hide Readable, PartitionOf;
    if n.fs != w.root && n.ino == ROOT_INODE {
      assert w.mountpoint[n.fs] in w.parts[w.root].dirs;
      DirKnown(vols[w.root], w.mountpoint[n.fs]);
    }
  }

  lemma TopKnown(vols: seq<Volume>, w: World)
    requires Mirrors(vols, w)
    ensures Known(vols, w, Top(w))
  {
    hide Readable, PartitionOf;
    assert Readable(vols[w.root]);
    RootLive(vols[w.root]);
  }

  /** Looks a name up behind whatever is mounted on the directory; names with a byte of 0x80 or more are not seen. */
  method LookAt(vols: seq<Volume>, mountpoint: seq<nat>, root: nat, n: Node, name: Name, ghost w: World) returns (hop: Hop)
    requires Mirrors(vols, w) && w.mountpoint == mountpoint && w.root == root && Known(vols, w, n) && NulFree(name)
    ensures hop == Look(Visible(w), n, name) && (hop.Hop? ==> Known(vols, w, hop.raw))
    ensures hop == if Paths.Ascii(name) then Look(w, n, name) else Missing
  {
    hide Mirrors, Readable, PartitionOf, IsDir, Entries, Find, Valid, Enter, NulFree, Visible;
    SeenIff(w, n, name);
    EnterKnown(vols, w, n);
    var e := MntRoot(mountpoint, root, n, w);
    var fs := vols[e.fs];
    PartitionAt(fs, e.ino);
    if fs.itab[e.ino].kind != Directory { return Missing; }
    PartitionName(fs, e.ino, name);
    var out := LookupDir(fs, e.ino, name);
    if out == 0 { return Missing; }
    return Hop(Node(e.fs, out));
  }

  /** The link test of lookup_path, and the target if it is one. */
  method TargetAt(vols: seq<Volume>, n: Node, ghost w: World) returns (link: bool, target: seq<byte>)
    requires Mirrors(vols, w) && Known(vols, w, n)
    ensures (link <==> IsLink(w, n)) && (link ==> target == Target(w, n) && Plain(target))
    ensures (link <==> IsLink(Visible(w), n)) && (link ==> target == Target(Visible(w), n))
  {
    SeenIff(w, n, []);
    hide Visible, Readable, PartitionOf, Valid, LinkTarget, Plain;
    var fs := vols[n.fs];
    assert Readable(fs) && w.parts[n.fs] == PartitionOf(View(fs));
    PartitionAt(fs, n.ino);
    if fs.itab[n.ino].kind != Symlink { return false, []; }
    ReadableValid(fs);
    target := ReadLink(fs, n.ino);
    link := true;
  }

  lemma ReadableValid(fs: Volume)
    requires Readable(fs)
    ensures Valid(fs)
  {
    hide Valid, AllDirs;
  }

  // ----- the whole path

  lemma StretchPlain(t: Text, i: nat, j: nat)
    requires Plain(t) && i <= j <= |t|
    ensures NulFree(t[i..j])
  {
  }

  /** One pass over the text, replacing it when it meets a link. */
  method Walk(vols: seq<Volume>, mountpoint: seq<nat>, root: nat, p: array<byte>, spare: array<byte>, len: nat, follow: bool,
              ghost t: Text, ghost w: World)
    returns (r: Outcome)
    requires Mirrors(vols, w) && w.mountpoint == mountpoint && w.root == root
    requires Paths.Holds(p, t) && len == |t| < PATH_LEN && IsAbsolute(t) && p != spare && spare.Length == PATH_LEN
    modifies spare
    ensures var pass := Scan(Visible(w), t, 1, Top(w), follow);
            && (pass.Arrive? ==> r == Found(pass.node) && Known(vols, w, pass.node))
            && (pass.Fail? || pass.TooLong? ==> r == Failed)
            && (pass.Again? ==> r == Replaced && Paths.Holds(spare, pass.text))
  {
    hide Look, IsLink, Leave, Target, Plain, Paths.Spliced, Top, Mirrors, Known, NulFree, Visible;
    TopKnown(vols, w);
    TopIs(w);
    var ind, cur := 1, Node(root, ROOT_INODE);
    while ind < len
      invariant 1 <= ind && Known(vols, w, cur)
      invariant Scan(Visible(w), t, 1, Top(w), follow) == Scan(Visible(w), t, ind, cur, follow)
      decreases len - ind
    {
      var j := ComponentEnd(p, t, len, ind);
      if j == ind {
        ind := j + 1;
        continue;
      }
      if j - ind >= NAME_LEN { return Failed; }
      var name := p[ind..j];
      SameStretch(p[..], t, ind, j);
      StretchPlain(t, ind, j);
      var hop := LookAt(vols, mountpoint, root, cur, name, w);
      if hop.Missing? { return Failed; }
      SeenIff(w, hop.raw, name);
      cur := MntMountpoint(mountpoint, root, hop.raw, vols, w);
      if j == len && !follow { return Found(cur); }
      var link, target := TargetAt(vols, hop.raw, w);
      if link {
        var ok := Splice(spare, p, t, len, ind, j, target);
        return if ok then Replaced else Failed;
      }
      ind := j + 1;
    }
    r := Found(cur);
  }

  lemma TopIs(w: World)
    ensures Top(w) == Node(w.root, ROOT_INODE)
  {
  }

  /** What the path means: component by component, with eight links to follow. */
  ghost function Meaning(w: World, text: Text, follow: bool): Result {
    if IsAbsolute(text) then Eval(w, Top(w), text, follow, 8) else No
  }

  /**
   * lookup_path: at most nine passes, alternating between the two spare buffers.  What it finds is what the path means,
   * and a mounted root comes back as its mountpoint.  It fails on a path that leads somewhere only if a name with a byte
   * of 0x80 or more is met, which the scans do not see, or if a spliced text outgrows the buffer.
   */
  method LookupPath(vols: seq<Volume>, mountpoint: seq<nat>, root: nat, path: array<byte>, follow: bool, ghost text: Text, ghost w: World)
    returns (r: Outcome)
    requires Mirrors(vols, w) && w.mountpoint == mountpoint && w.root == root && Paths.Holds(path, text)
    ensures r.Found? ==> Normal(w, r.node) && Known(vols, w, r.node)
    ensures r.Found? ==> Meaning(w, text, follow).Yes? && Meaning(w, text, follow).node == r.node
    ensures r.Found? ==> Meaning(Visible(w), text, follow) == Meaning(w, text, follow)
    ensures r == Failed <==> Meaning(Visible(w), text, follow).No? || (IsAbsolute(text) && Resolve(Visible(w), text, follow, 9).TooLong?)
    ensures Paths.Ascii(text) && TargetsAscii(w) ==> Meaning(Visible(w), text, follow) == Meaning(w, text, follow)
    ensures forall m: nat :: TargetsWithin(w, m) && HasRoom(|text|, 8, m) ==> (r == Failed <==> Meaning(Visible(w), text, follow).No?)
    ensures r != Replaced
  {
    hide Eval, Scan, Mirrors, Known, TargetsWithin, Resolve, Visible, TargetsAscii, Paths.Ascii, HasRoom;
    ghost var u := Visible(w);
    SeenIff(w, Top(w), text);
    if Paths.Ascii(text) && TargetsAscii(w) { AsciiIsSeen(w, Top(w), text, follow, SYMLINK_MAX_DEPTH); }
    if path[0] != SLASH { return Failed; }
    SplicingIsResolving(u, text, follow, SYMLINK_MAX_DEPTH + 1);
    SeenIsRight(w, Top(w), text, follow, SYMLINK_MAX_DEPTH);
    forall m: nat | TargetsWithin(w, m) && HasRoom(|text|, SYMLINK_MAX_DEPTH, m)
      ensures Resolve(u, text, follow, SYMLINK_MAX_DEPTH + 1).TooLong? ==> Meaning(u, text, follow).No?
    {
      SeenTargets(w, m);
      RoomSuffices(u, text, follow, SYMLINK_MAX_DEPTH, m);
    }
    var a, b := new byte[PATH_LEN], new byte[PATH_LEN];
    var p := path;
    ghost var t := text;
    for splices := 0 to SYMLINK_MAX_DEPTH + 1
      invariant Mirrors(vols, w) && Paths.Holds(p, t) && IsAbsolute(t)
      invariant if splices % 2 == 0 then p != a else p != b
      invariant p != path ==> fresh(p)
      invariant Resolve(u, text, follow, SYMLINK_MAX_DEPTH + 1) == Resolve(u, t, follow, SYMLINK_MAX_DEPTH + 1 - splices)
    {
      OnePass(u, t, follow, SYMLINK_MAX_DEPTH + 1 - splices);
      var len := Length(p, t);
      if len == PATH_LEN { return Failed; }
      var spare := if splices % 2 == 0 then a else b;
      r := Walk(vols, mountpoint, root, p, spare, len, follow, t, w);
      ScanNormal(u, t, 1, Top(u), follow);
      NormalSeen(w, r);
      if !r.Replaced? { return; }
      SplicedAbsolute(u, t, 1, Top(u), follow);
      p, t := spare, Scan(u, t, 1, Top(u), follow).text;
    }
    NoPasses(u, t, follow);
    r := Failed;
  }

  lemma SeenTargets(w: World, m: nat)
    requires TargetsWithin(w, m)
    ensures TargetsWithin(Visible(w), m)
  {
  }

  lemma NormalSeen(w: World, r: Outcome)
    ensures r.Found? ==> (Normal(Visible(w), r.node) <==> Normal(w, r.node))
  {
  }

  lemma OnePass(w: World, t: Text, follow: bool, passes: nat)
    requires passes > 0
    ensures var r := Scan(w, t, 1, Top(w), follow);
            Resolve(w, t, follow, passes) ==
            if |t| >= PATH_LEN then TooLong else if r.Again? then Resolve(w, r.text, follow, passes - 1) else r
  {
    hide Scan;
  }

  lemma NoPasses(w: World, t: Text, follow: bool)
    ensures Resolve(w, t, follow, 0) == Fail
  {
  }

  // ----- what a path finds, in terms of directory entries

  /** The directory behind node n: the root of the first partition mounted on it, or n itself. */
  ghost predicate Opens(mountpoint: seq<nat>, root: nat, n: Node, e: Node) {
    if n.fs == root && n.ino in mountpoint
    then e.fs < |mountpoint| && mountpoint[e.fs] == n.ino && e.ino == 2 && forall j :: 0 <= j < e.fs ==> mountpoint[j] != n.ino
    else e == n
  }

  lemma OpensIs(w: World, n: Node, e: Node)
    requires Opens(w.mountpoint, w.root, n, e)
    ensures e == Enter(w, n)
  {
    MountedFirst(w, n.ino, 0);
  }

  /** The inode that entry n of the directory at e stands for: the root of a mounted partition is its mountpoint. */
  function Stands(mountpoint: seq<nat>, root: nat, e: Node, n: nat): Node {
    if e.fs != root && n == 2 && e.fs < |mountpoint| then Node(root, mountpoint[e.fs]) else Node(e.fs, n)
  }

  /** A name behind a path: it is looked up in the directory that the path leads to. */
  lemma OneMore(w: World, p: Text, x: Text, d: Node, left: nat, follow: bool)
    requires IsAbsolute(p) && Eval(w, Top(w), p, true, SYMLINK_MAX_DEPTH) == Yes(d, left) && 0 < |x| < NAME_LEN
    requires forall i :: 0 <= i < |x| ==> x[i] != SLASH
    requires Look(w, d, x).Hop? && follow ==> !IsLink(w, Look(w, d, x).raw)
    ensures Meaning(w, p + [SLASH] + x, follow) == if Look(w, d, x).Hop? then Yes(Leave(w, Look(w, d, x).raw), left) else No
  {
    hide Look, IsLink, Leave;
    var rest := [SLASH] + x;
    assert p + [SLASH] + x == p + rest && rest[1..] == x && x[..|x|] == x && x[|x|..] == [];
    assert IsAbsolute(p + rest);
    EvalJoin(w, Top(w), p, rest, follow, SYMLINK_MAX_DEPTH);
    assert NextSlash(x, 0) == |x| && NextSlash(rest, 0) == 0;
    if Look(w, d, x).Hop? { assert Eval(w, Leave(w, Look(w, d, x).raw), [], follow, left) == Yes(Leave(w, Look(w, d, x).raw), left); }
  }

  /** Where a link with this target leads from the directory of the path p. */
  function Instead(p: Text, t: Text): Text {
    if t != [] && t[0] == 47 then t else p + [47] + t
  }

  /** A link behind a path: it stands for its target, read from the top or from where the link is, at the cost of one link. */
  lemma LinkIsTarget(w: World, p: Text, x: Text, d: Node, left: nat, t: Text)
    requires IsAbsolute(p) && Eval(w, Top(w), p, true, 8) == Yes(d, left) && 0 < |x| < 256
    requires forall i :: 0 <= i < |x| ==> x[i] != 47
    requires Look(w, d, x).Hop? && IsLink(w, Look(w, d, x).raw) && Target(w, Look(w, d, x).raw) == t
    ensures var a, b := Meaning(w, p + [47] + x, true), Meaning(w, Instead(p, t), true);
            var cost := if t != [] && t[0] == 47 then 9 - left else 1;
            a == if b.Yes? && b.left >= cost then Yes(b.node, b.left - cost) else No
  {
    hide Look, IsLink, Target;
    var rest := [SLASH] + x;
    assert p + [47] + x == p + rest && rest[1..] == x && x[..|x|] == x && x[|x|..] == [];
    EvalJoin(w, Top(w), p, rest, true, 8);
    assert NextSlash(x, 0) == |x| && NextSlash(rest, 0) == 0;
    var from := if IsAbsolute(t) then Top(w) else d;
    if left > 0 {
      var mid := Eval(w, from, t, true, left - 1);
      if mid.Yes? { assert Eval(w, mid.node, [], true, mid.left) == mid; }
    }
    TargetFrom(w, p, d, left, t);
  }

  /** The target, read on its own and read with one link less. */
  lemma TargetFrom(w: World, p: Text, d: Node, left: nat, t: Text)
    requires IsAbsolute(p) && Eval(w, Top(w), p, true, 8) == Yes(d, left)
    ensures var b := Meaning(w, Instead(p, t), true);
            var cost := if t != [] && t[0] == 47 then 9 - left else 1;
            var a := if left == 0 then No else Eval(w, if IsAbsolute(t) then Top(w) else d, t, true, left - 1);
            a == if b.Yes? && b.left >= cost then Yes(b.node, b.left - cost) else No
  {
    if IsAbsolute(t) {
      if left > 0 { EvalShift(w, Top(w), t, true, left - 1, 9 - left); }
    } else {
      var rest := [SLASH] + t;
      assert p + [47] + t == p + rest && rest[1..] == t && NextSlash(rest, 0) == 0;
      assert IsAbsolute(p + rest);
      EvalJoin(w, Top(w), p, rest, true, 8);
      if left > 0 { EvalShift(w, d, t, true, left - 1, 1); }
    }
  }

  /** What the directory at e holds under a name, as path lookup sees it. */
  lemma EntrySeen(vols: seq<Volume>, w: World, d: Node, e: Node, x: Name)
    requires Mirrors(vols, w) && Known(vols, w, d) && Opens(w.mountpoint, w.root, d, e)
    ensures e.fs < |vols| && Known(vols, w, e) && (e.fs == w.root || e.fs < |w.mountpoint|)
    ensures IsDir(View(vols[e.fs]), e.ino) ==>
              var n := Find(Entries(View(vols[e.fs]), e.ino), x);
              && Look(Visible(w), d, x) == (if DirBlock.Ascii(x) && n != 0 then Hop(Node(e.fs, n)) else Missing)
              && (n != 0 ==> Known(vols, w, Node(e.fs, n)) && Leave(Visible(w), Node(e.fs, n)) == Stands(w.mountpoint, w.root, e, n))
              && (n != 0 ==> n in vols[e.fs].itab && (IsLink(Visible(w), Node(e.fs, n)) <==> vols[e.fs].itab[n].kind == Symlink))
              && (n != 0 && vols[e.fs].itab[n].kind == Symlink ==> Target(Visible(w), Node(e.fs, n)) == LinkTarget(View(vols[e.fs]), n))
  {
    hide Readable, PartitionOf, Entries, Find, Visible, Enter, Opens;
    OpensIs(w, d, e);
    EnterKnown(vols, w, d);
    SeenIff(w, d, x);
    var fs := vols[e.fs];
    PartitionAt(fs, e.ino);
    if IsDir(View(fs), e.ino) {
      PartitionName(fs, e.ino, x);
      var n := Find(Entries(View(fs), e.ino), x);
      if n != 0 {
        PartitionAt(fs, n);
        SeenIff(w, Node(e.fs, n), x);
      }
    }
  }

  /**
   * Path lookup against the entries of directories: where p leads to a directory, p/x leads to what that directory holds
   * under the name x of up to 255 bytes, and nowhere if it holds nothing.
   */
  method FindsEntry(vols: seq<Volume>, mountpoint: seq<nat>, root: nat, path: array<byte>, longer: array<byte>, follow: bool,
                    ghost p: Text, ghost x: Name, ghost e: Node, ghost m: nat, ghost w: World)
    returns (d: Outcome, r: Outcome)
    requires Mirrors(vols, w) && w.mountpoint == mountpoint && w.root == root
    requires Paths.Holds(path, p) && Paths.Holds(longer, p + [47] + x) && GoodName(x) && forall i :: 0 <= i < |x| ==> x[i] != 47
    requires TargetsWithin(w, m) && m > 0 && |p| + 1 + |x| + 8 * (m - 1) < 4096
    ensures d.Found? && Opens(mountpoint, root, d.node, e) ==> e.fs < |vols|
    ensures d.Found? && Opens(mountpoint, root, d.node, e) && IsDir(View(vols[e.fs]), e.ino) ==>
              var n := Find(Entries(View(vols[e.fs]), e.ino), x);
              && (n == 0 || !DirBlock.Ascii(x) ==> r == Failed)
              && (n != 0 && DirBlock.Ascii(x) && (follow ==> n in vols[e.fs].itab && vols[e.fs].itab[n].kind != Symlink) ==>
                    r == Found(Stands(mountpoint, root, e, n)))
  {
    hide Mirrors, Known, Visible, Look, IsLink, Leave, Find, Entries, IsDir, Eval, Resolve, TargetsWithin, Opens, Stands, TargetsAscii, Paths.Ascii;
    d := LookupPath(vols, mountpoint, root, path, true, p, w);
    r := LookupPath(vols, mountpoint, root, longer, follow, p + [47] + x, w);
    if d.Found? && Opens(mountpoint, root, d.node, e) {
      EntrySeen(vols, w, d.node, e, x);
      if IsDir(View(vols[e.fs]), e.ino) {
        ghost var u, n := Visible(w), Find(Entries(View(vols[e.fs]), e.ino), x);
        if n == 0 || !DirBlock.Ascii(x) || (follow ==> vols[e.fs].itab[n].kind != Symlink) {
          OneMore(u, p, x, d.node, Meaning(u, p, true).left, follow);
        }
      }
    }
  }

  /**
   * Path lookup against the targets of links: where p leads to a directory that holds a link under the name x, all that
   * is found under p/x is found under the target too, which is read from that directory, or from the top if it starts
   * with a slash.
   */
  method FollowsLink(vols: seq<Volume>, mountpoint: seq<nat>, root: nat, path: array<byte>, longer: array<byte>, other: array<byte>,
                     ghost p: Text, ghost x: Name, ghost t: Text, ghost e: Node, ghost m: nat, ghost w: World)
    returns (d: Outcome, r: Outcome, r': Outcome)
    requires Mirrors(vols, w) && w.mountpoint == mountpoint && w.root == root
    requires Paths.Holds(path, p) && Paths.Holds(longer, p + [47] + x) && Paths.Holds(other, Instead(p, t))
    requires GoodName(x) && forall i :: 0 <= i < |x| ==> x[i] != 47
    requires TargetsWithin(w, m) && m > 0 && |Instead(p, t)| + 8 * (m - 1) < 4096
    ensures d.Found? && Opens(mountpoint, root, d.node, e) ==> e.fs < |vols|
    ensures d.Found? && Opens(mountpoint, root, d.node, e) && IsDir(View(vols[e.fs]), e.ino) && r.Found? ==>
              var n := Find(Entries(View(vols[e.fs]), e.ino), x);
              n in vols[e.fs].itab && vols[e.fs].itab[n].kind == Symlink && LinkTarget(View(vols[e.fs]), n) == t ==> r' == r
  {
    hide Mirrors, Known, Visible, Look, IsLink, Target, Leave, Find, Entries, IsDir, Eval, Resolve, TargetsWithin, Opens, Stands, TargetsAscii, Paths.Ascii, LinkTarget;
    d := LookupPath(vols, mountpoint, root, path, true, p, w);
    r := LookupPath(vols, mountpoint, root, longer, true, p + [47] + x, w);
    r' := LookupPath(vols, mountpoint, root, other, true, Instead(p, t), w);
    if d.Found? && Opens(mountpoint, root, d.node, e) {
      EntrySeen(vols, w, d.node, e, x);
      if IsDir(View(vols[e.fs]), e.ino) && r.Found? {
        ghost var u, n := Visible(w), Find(Entries(View(vols[e.fs]), e.ino), x);
        if n in vols[e.fs].itab && vols[e.fs].itab[n].kind == Symlink && LinkTarget(View(vols[e.fs]), n) == t {
          if n == 0 || !DirBlock.Ascii(x) {
            OneMore(u, p, x, d.node, Meaning(u, p, true).left, true);
          } else {
            LinkIsTarget(u, p, x, d.node, Meaning(u, p, true).left, t);
          }
        }
      }
    }
  }
}
