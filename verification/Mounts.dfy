/** The mount table (kernel/fs/mount/mount.c): mounting by label under /mnt, and unmounting. */
module Mounts {
  import opened Blocks
  import opened Volumes
  import opened FileSystem
  import opened DirTree
  import opened Namespace
  import opened NamespaceOps
  import opened Paths
  import opened PathLookup

  const NAME_BYTES: nat := 16   // vol_name in the superblock

  /** "/mnt/" */
  const SEED: Text := [47, 109, 110, 116, 47]

  function Dot(): Text { [46] }

  /** The first slot behind the root's that holds a partition with this label, from slot i on. */
  function SlotOf(labels: seq<Text>, present: seq<bool>, name: Text, i: nat): (k: nat)
    requires |labels| == |present|
    ensures k < |labels| ==> i <= k && present[k] && labels[k] == name
    decreases |labels| - i
  {
    if i >= |labels| || (present[i] && labels[i] == name) then i else SlotOf(labels, present, name, i + 1)
  }

  /** Slot k is the first one behind the root's that holds a partition with this label. */
  predicate FirstLabelled(labels: seq<Text>, present: seq<bool>, root: nat, name: Text, k: nat) {
    && root < k < |labels| == |present| && present[k] && labels[k] == name
    && forall j :: root < j < k ==> !(present[j] && labels[j] == name)
  }

  predicate AnyLabelled(labels: seq<Text>, present: seq<bool>, root: nat, name: Text) {
    |labels| == |present| && exists j :: root < j < |labels| && present[j] && labels[j] == name
  }

  /** SlotOf finds the first one if there is any. */
  lemma {:induction false} SlotIsFirst(labels: seq<Text>, present: seq<bool>, name: Text, root: nat, i: nat)
    requires |labels| == |present| && root < i && forall j :: root < j < i && j < |labels| ==> !(present[j] && labels[j] == name)
    ensures var k := SlotOf(labels, present, name, i);
            if AnyLabelled(labels, present, root, name) then FirstLabelled(labels, present, root, name, k) else k >= |labels|
    decreases |labels| - i
  {
    if i < |labels| && !(present[i] && labels[i] == name) { SlotIsFirst(labels, present, name, root, i + 1); }
  }

  predicate HasSlash(name: Text) {
    exists j :: 0 <= j < |name| && name[j] == SLASH
  }

  predicate Blank(raw: Text) {
    forall j :: 0 <= j < |raw| ==> raw[j] == 0
  }

  /** The string at the start of a buffer. */
  function CString(raw: Text): (s: Text)
    ensures |s| <= |raw| && Plain(s)
  {
    if raw == [] || raw[0] == 0 then [] else [raw[0]] + CString(raw[1..])
  }

  lemma {:induction false} CStringSlash(raw: Text)
    requires !HasSlash(raw)
    ensures !HasSlash(CString(raw))
  {
    if raw != [] && raw[0] != 0 {
      assert !HasSlash(raw[1..]) by { assert forall j :: 0 <= j < |raw[1..]| ==> raw[1..][j] == raw[j + 1]; }
      CStringSlash(raw[1..]);
      var s := CString(raw);
      assert forall j :: 0 <= j < |s| ==> s[j] == if j == 0 then raw[0] else CString(raw[1..])[j - 1];
    }
  }

  /** Another partition carries the same label. */
  ghost predicate Duplicate(labels: seq<Text>, present: seq<bool>, root: nat, i: nat)
    requires |labels| == |present| && i < |labels|
  {
    exists j :: root < j < |labels| && j != i && present[j] && labels[j] == labels[i]
  }

  /** The directory that a label is mounted on: found by its path, the last name not followed. */
  ghost function MountDir(w: World, name: Text): Result {
    Meaning(Visible(w), [47, 109, 110, 116, 47] + name, false)   // /mnt/
  }

  /** The conditions under which mount_fs mounts the partition in slot i, whose volume name is `raw`. */
  ghost predicate MayMount(labels: seq<Text>, raw: Text, present: seq<bool>, i: nat, w: World) {
    && i < |labels| == |present| && present[i] && w.root < i < |w.mountpoint| && w.mountpoint[i] == 0
    && labels[i] != [46] && labels[i] != [46, 46] && !HasSlash(raw) && !Blank(raw)
    && !Duplicate(labels[i := CString(raw)], present, w.root, i)
    && var e := MountDir(w, CString(raw));
       e.Yes? && e.node.fs == w.root < |w.parts| && e.node.ino in w.parts[w.root].dirs
  }

  /** Link targets are short enough for no mount path to outgrow the buffers of lookup_path. */
  ghost predicate ShortLinks(w: World) {
    exists m: nat :: TargetsWithin(w, m) && HasRoom(21, 8, m)   // /mnt/ and a label
  }

  /** The copy of the volume name: whether it has a slash, whether it is blank, and the label it gives. */
  method CopyName(raw: Text) returns (slash: bool, found: bool, name: Text)
    ensures slash <==> HasSlash(raw)
    ensures !slash ==> (found <==> !Blank(raw)) && name == CString(raw) && !HasSlash(name)
  {
    slash, found, name := false, false, [];
    for j := 0 to |raw|
      invariant (found <==> exists k :: 0 <= k < j && raw[k] != 0) && forall k :: 0 <= k < j ==> raw[k] != SLASH
    {
      if raw[j] == SLASH { return true, found, name; }
      if raw[j] != 0 { found := true; }
    }
    CStringSlash(raw);
    name := CString(raw);
  }

  class MountTable {
    const vols: seq<Volume>       // fs_entries
    const root: nat               // root_slot_n
    const present: seq<bool>      // sector_count != 0
    const volNames: seq<Text>     // the superblocks' vol_name
    var labels: seq<Text>
    var mountpoint: seq<nat>

    /** The table over the volumes that w mirrors. */
    ghost predicate Valid(w: World)
      reads this, vols, set v | v in vols :: v.blocks, set v | v in vols :: v.inodes
    {
      && Mirrors(vols, w) && w.mountpoint == mountpoint && w.root == root && |labels| == |present| == |volNames| == |vols|
      && forall i :: 0 <= i < |labels| ==> |volNames[i]| == NAME_BYTES && (labels[i] == CString(volNames[i]) || (labels[i] == [] && HasSlash(volNames[i])))
    }

    /** mount_init: nothing is mounted, and the labels are the volume names. */
    constructor (vols: seq<Volume>, root: nat, present: seq<bool>, volNames: seq<Text>, ghost w: World)
      requires Mirrors(vols, w) && w.root == root && w.mountpoint == seq(|vols|, _ => 0) && |volNames| == |present| == |vols|
      requires forall i :: 0 <= i < |volNames| ==> |volNames[i]| == 16
      ensures Valid(w) && this.root < |this.vols| && Spread(TreeIn(this.vols[this.root]), labels, present, w)
    {
      hide Readable, PartitionOf, Pinned, CString, HasSlash;
      this.vols, this.root, this.present, this.volNames := vols, root, present, volNames;
      labels := seq(|volNames|, i requires 0 <= i < |volNames| => CString(volNames[i]));
      mountpoint := seq(|vols|, _ => 0);
    }

    /** The search for a label. */
    method Find(name: Text) returns (i: nat)
      requires |labels| == |present|
      ensures i == SlotOf(labels, present, name, root + 1)
      ensures if AnyLabelled(labels, present, root, name) then FirstLabelled(labels, present, root, name, i) else i >= |labels|
    {
      SlotIsFirst(labels, present, name, root, root + 1);
      i := root + 1;
      while i < |labels|
        invariant SlotOf(labels, present, name, root + 1) == SlotOf(labels, present, name, i)
      {
        if present[i] && labels[i] == name { return; }
        i := i + 1;
      }
    }

    /** The search for another partition with the label of slot i. */
    method IsDuplicate(i: nat) returns (twice: bool)
      requires |labels| == |present| && i < |labels|
      ensures twice <==> Duplicate(labels, present, root, i)
    {
      var j := root + 1;
      while j < |labels|
        invariant root < j && forall k :: root < k < j && k < |labels| && k != i && present[k] ==> labels[k] != labels[i]
      {
        if j != i && present[j] && labels[j] == labels[i] { return true; }
        j := j + 1;
      }
      return false;
    }

    /** lookup_path on /mnt/ and the label. */
    method FindDir(name: Text, ghost w: World) returns (r: Outcome)
      requires Valid(w) && Plain(name) && |name| <= NAME_BYTES
      ensures r != Replaced
      ensures r.Found? ==> Known(vols, w, r.node) && MountDir(w, name).Yes? && MountDir(w, name).node == r.node
      ensures ShortLinks(w) && r == Failed ==> MountDir(w, name).No?
    {
      hide Mirrors, Meaning, Known, TargetsWithin, Visible, HasRoom;
      var text := SEED + name;
      var path := new byte[|text| + 1](i => 0);
      forall i | 0 <= i < |text| { path[i] := text[i]; }
      assert path[..|text|] == text;
      r := LookupPath(vols, mountpoint, root, path, false, text, w);
      if ShortLinks(w) {
        ghost var m: nat :| TargetsWithin(w, m) && HasRoom(21, 8, m);
        RoomShorter(|text|, 21, 8, m);
      }
    }

    /** mount_fs: on success exactly one free slot gets its mountpoint; the table stays sound either way. */
    method Mount(name: Text, ghost w: World) returns (ok: bool, ghost i: nat, ghost w': World)
      requires Valid(w)
      modifies this
      ensures i == SlotOf(old(labels), present, name, root + 1) && Valid(w') && w'.parts == w.parts
      ensures if old(AnyLabelled(labels, present, root, name)) then FirstLabelled(old(labels), present, root, name, i) else i >= |old(labels)|
      ensures ok ==> i < |volNames| && MayMount(old(labels), volNames[i], present, i, w)
      ensures ok ==> mountpoint == old(mountpoint)[i := MountDir(w, CString(volNames[i])).node.ino] && mountpoint[i] != 0
      ensures ok ==> labels[i] == CString(volNames[i])
      ensures !ok ==> mountpoint == old(mountpoint) && w' == w
      ensures !ok && ShortLinks(w) && i < |volNames| ==> !MayMount(old(labels), volNames[i], present, i, w)
      ensures labels == old(labels) || (!ok && i < |labels| && mountpoint[i] == 0 && labels == old(labels)[i := []])
    {
      hide Mirrors, MountDir, Known, Readable, ShortLinks, Plain, CString, HasSlash, Duplicate, Blank;
      ok, w' := false, w;
      TableSize(vols, w);
      var k := Find(name);
      i := k;
      if k >= |labels| { return; }
      if mountpoint[k] != 0 { return; }
      if name == Dot() || name == Dot() + Dot() { return; }
      var slash, found, given := CopyName(volNames[k]);
      if slash {
        labels := labels[k := []];
        return;
      }
      if !found { return; }
      ghost var labels0 := labels;
      labels := labels[k := given];
      var twice := IsDuplicate(k);
      if twice { return; }
      var r := FindDir(given, w);
      if r == Failed || r.node.fs != root { return; }
      KnownFacts(vols, w, r.node);
      if vols[root].itab[r.node.ino].kind != Directory { return; }
      mountpoint := mountpoint[k := r.node.ino];
      w' := w.(mountpoint := mountpoint);
      MountedMore(vols, w, k, r.node.ino);
      ok := true;
    }

    /** umount_fs: on success exactly one used slot is freed; the table stays sound. */
    method Umount(name: Text, ghost w: World) returns (ok: bool, ghost i: nat, ghost w': World)
      requires Valid(w)
      modifies this`mountpoint
      ensures Valid(w') && w'.parts == w.parts && i == SlotOf(labels, present, name, root + 1)
      ensures if AnyLabelled(labels, present, root, name) then FirstLabelled(labels, present, root, name, i) else i >= |labels|
      ensures ok <==> i < |labels| && old(mountpoint)[i] != 0
      ensures mountpoint == if ok then old(mountpoint)[i := 0] else old(mountpoint)
    {
      hide Mirrors, CString;
      ok, w' := false, w;
      TableSize(vols, w);
      var k := Find(name);
      i := k;
      if k >= |labels| || mountpoint[k] == 0 { return; }
      mountpoint := mountpoint[k := 0];
      w' := w.(mountpoint := mountpoint);
      MountedLess(vols, w, k);
      ok := true;
    }

    /** Unmounting what has just been mounted restores the table. */
    method MountAndBack(name: Text, ghost w: World) returns (ok: bool)
      requires Valid(w)
      modifies this
      ensures mountpoint == old(mountpoint) && Valid(w) && (ok ==> labels == old(labels))
    {
      hide Mirrors, MountDir, CString, HasSlash, ShortLinks, Blank, Duplicate;
      ghost var before := mountpoint;
      ghost var i, w1, w2;
      ok, i, w1 := Mount(name, w);
      if ok {
        var back;
        back, i, w2 := Umount(name, w1);
        assert before[i := 0] == before && w2 == w;
      }
    }

    /** Mounting and unmounting, over any sequence of labels: no two partitions whose labels are not empty share a mountpoint. */
    method Session(names: seq<(bool, Text)>, ghost w: World) returns (ghost w': World)
      requires Valid(w) && root < |vols| && Trees(vols) && Spread(TreeIn(vols[root]), labels, present, w)
      modifies this
      ensures Valid(w') && w'.parts == w.parts && Spread(TreeIn(vols[root]), labels, present, w')
      ensures Alone(labels, w')
    {
      hide Mirrors, MountDir, CString, Trees, Spread, NsOK, Abs, MayMount, ShortLinks, Alone;
      w' := w;
      ghost var s := TreeIn(vols[root]);
      for k := 0 to |names|
        invariant Valid(w') && w'.parts == w.parts && Spread(s, labels, present, w') && TreeIn(vols[root]) == s && Trees(vols)
      {
        ghost var w0, labels0 := w', labels;
        var ok;
        ghost var i;
        if names[k].0 {
          ok, i, w' := Mount(names[k].1, w');
          if ok { SpreadMore(vols, labels, volNames[i], present, i, w0, w'); } else { SpreadSame(s, labels0, labels, present, i, w0); }
        } else {
          ok, i, w' := Umount(names[k].1, w');
          if ok { SpreadLess(s, labels, present, w0, w', i); }
        }
      }
      TreeOfRoot(vols, root);
      TableSize(vols, w');
      SpreadApart(s, labels, present, w');
    }
  }

  lemma TableSize(vols: seq<Volume>, w: World)
    requires Mirrors(vols, w)
    ensures |w.mountpoint| == |w.parts| == |vols| && w.root < |vols| && w.mountpoint[w.root] == 0
  {
    hide Readable;
  }

  lemma KnownFacts(vols: seq<Volume>, w: World, n: Node)
    requires Mirrors(vols, w) && Known(vols, w, n)
    ensures n.ino in vols[n.fs].itab && n.ino != 0 && (n.ino in w.parts[n.fs].dirs <==> vols[n.fs].itab[n.ino].kind == Directory)
  {
    hide Readable, PartitionOf;
    PartitionAt(vols[n.fs], n.ino);
  }

  lemma MountedMore(vols: seq<Volume>, w: World, i: nat, ino: nat)
    requires Mirrors(vols, w) && w.root < i < |w.mountpoint| && w.root < |w.parts| && ino in w.parts[w.root].dirs
    ensures Mirrors(vols, w.(mountpoint := w.mountpoint[i := ino]))
  {
    hide Readable, PartitionOf;
  }

  lemma MountedLess(vols: seq<Volume>, w: World, i: nat)
    requires Mirrors(vols, w) && i < |w.mountpoint|
    ensures Mirrors(vols, w.(mountpoint := w.mountpoint[i := 0]))
  {
    hide Readable, PartitionOf;
  }

  // ----- no two partitions on one directory

  /** Every volume stores a sound tree. */
  ghost predicate Trees(vols: seq<Volume>)
    reads vols, set v | v in vols :: v.blocks
  {
    forall i :: 0 <= i < |vols| ==> NsOK(TreeIn(vols[i]))
  }

  /** Mounted slots with labels: the labels differ, and each is mounted on a directory that some directory names by its label. */
  ghost predicate Spread(s: Ns, labels: seq<Text>, present: seq<bool>, w: World) {
    && |labels| == |present| == |w.mountpoint|
    && (forall i: nat :: Labelled(labels, w, i) ==> w.root < i && present[i] && Pinned(s, labels[i], w.mountpoint[i]))
    && (forall i: nat, j: nat :: Labelled(labels, w, i) && Labelled(labels, w, j) && labels[i] == labels[j] ==> i == j)
  }

  predicate Labelled(labels: seq<Text>, w: World, i: nat) {
    i < |labels| && i < |w.mountpoint| && w.mountpoint[i] != 0 && labels[i] != []
  }

  ghost predicate Alone(labels: seq<Text>, w: World) {
    forall i: nat, j: nat :: Labelled(labels, w, i) && Labelled(labels, w, j) && w.mountpoint[i] == w.mountpoint[j] ==> i == j
  }

  ghost predicate Pinned(s: Ns, name: Text, ino: nat) {
    exists d: nat :: Subdir(s, d, name) && Ent(s, d, name) == ino
  }

  /** A directory has one name, so different labels mean different directories. */
  lemma SpreadApart(s: Ns, labels: seq<Text>, present: seq<bool>, w: World)
    requires NsOK(s) && Spread(s, labels, present, w)
    ensures Alone(labels, w)
  {
    hide LinksExact, AllClimb, Namespace.AllNamed, Subdir, Ent;
    forall i: nat, j: nat | Labelled(labels, w, i) && Labelled(labels, w, j) && w.mountpoint[i] == w.mountpoint[j] ensures i == j {
      var d: nat :| Subdir(s, d, labels[i]) && Ent(s, d, labels[i]) == w.mountpoint[i];
      var e: nat :| Subdir(s, e, labels[j]) && Ent(s, e, labels[j]) == w.mountpoint[j];
      assert Parent(s, Ent(s, d, labels[i])) == d && Parent(s, Ent(s, e, labels[j])) == e;
    }
  }

  lemma TreeOfRoot(vols: seq<Volume>, root: nat)
    requires Trees(vols) && root < |vols|
    ensures NsOK(TreeIn(vols[root]))
  {
    hide NsOK, Abs;
  }

  lemma SpreadSame(s: Ns, labels: seq<Text>, labels': seq<Text>, present: seq<bool>, i: nat, w: World)
    requires Spread(s, labels, present, w) && |labels'| == |labels|
    requires forall j :: 0 <= j < |labels| && j != i ==> labels'[j] == labels[j]
    requires i < |labels| && w.mountpoint[i] != 0 ==> labels'[i] == labels[i]
    ensures Spread(s, labels', present, w)
  {
    hide Pinned;
    assert forall j: nat :: Labelled(labels', w, j) ==> Labelled(labels, w, j) && labels'[j] == labels[j];
  }

  lemma SpreadLess(s: Ns, labels: seq<Text>, present: seq<bool>, w: World, w': World, i: nat)
    requires Spread(s, labels, present, w) && i < |labels| && w' == w.(mountpoint := w.mountpoint[i := 0])
    ensures Spread(s, labels, present, w')
  {
    hide Pinned;
    assert forall j: nat :: Labelled(labels, w', j) ==> Labelled(labels, w, j) && w'.mountpoint[j] == w.mountpoint[j];
  }

  lemma SpreadMore(vols: seq<Volume>, labels: seq<Text>, raw: Text, present: seq<bool>, i: nat, w: World, w': World)
    requires Mirrors(vols, w) && Trees(vols) && w.root < |vols| && |raw| == NAME_BYTES
    requires Spread(TreeIn(vols[w.root]), labels, present, w) && MayMount(labels, raw, present, i, w) && CString(raw) == labels[i]
    requires w' == w.(mountpoint := w.mountpoint[i := MountDir(w, CString(raw)).node.ino])
    ensures Spread(TreeIn(vols[w.root]), labels, present, w')
  {
    hide Mirrors, Trees, Pinned, Abs, MountDir, Blank, HasSlash;
    CStringSlash(raw);
    assert labels[i := CString(raw)] == labels;
    if labels[i] != [] { LastNamed(vols, w, labels[i]); }
    assert forall j: nat :: Labelled(labels, w', j) && j != i ==> Labelled(labels, w, j) && w'.mountpoint[j] == w.mountpoint[j];
  }

  /** The directory that a label leads to under /mnt is named by that label. */
  lemma LastNamed(vols: seq<Volume>, w: World, name: Text)
    requires Mirrors(vols, w) && Trees(vols) && name != [] && !HasSlash(name) && |name| <= NAME_BYTES && !IsDot(name)
    requires MountDir(w, name).Yes? && w.root < |w.parts| && MountDir(w, name).node.fs == w.root
    requires MountDir(w, name).node.ino in w.parts[w.root].dirs
    ensures w.root < |vols| && Pinned(TreeIn(vols[w.root]), name, MountDir(w, name).node.ino)
  {
    hide Readable, Abs, Trees, Look, Leave, Enter, MountDir, Pinned;
    var n := LastHop(w, name);
    HopNamed(vols, w, n, name);
  }

  /** The last step of the lookup is the label, looked up in some directory. */
  lemma LastHop(w: World, name: Text) returns (n: Node)
    requires name != [] && !HasSlash(name) && |name| <= NAME_BYTES && MountDir(w, name).Yes?
    ensures Look(w, n, name).Hop? && MountDir(w, name).node == Leave(w, Look(w, n, name).raw)
  {
    hide Look, Leave, Enter;
    var u, mnt, rest := Visible(w), SEED[..4], [SLASH] + name;
    assert SEED + name == mnt + rest && rest[1..] == name;
    hide Visible;
    EvalJoin(u, Top(u), mnt, rest, false, SYMLINK_MAX_DEPTH);
    n := Eval(u, Top(u), mnt, true, SYMLINK_MAX_DEPTH).node;
    WholeName(name, 0);
    assert name[..|name|] == name;
    SeenIff(w, n, name);
    if Ascii(name) && Look(w, n, name).Hop? { SeenIff(w, Look(w, n, name).raw, name); }
  }

  /** A subdirectory is never a root, so that leaving it stays there. */
  lemma HopNamed(vols: seq<Volume>, w: World, n: Node, name: Text)
    requires Mirrors(vols, w) && Trees(vols) && !IsDot(name) && Look(w, n, name).Hop? && w.root < |w.parts|
    requires var e := Leave(w, Look(w, n, name).raw); e.fs == w.root && e.ino in w.parts[w.root].dirs
    ensures w.root < |vols| && Pinned(TreeIn(vols[w.root]), name, Leave(w, Look(w, n, name).raw).ino)
  {
    hide Readable, Abs, Trees, LinksExact, AllClimb, Namespace.AllNamed, OneName, Enter;
    var raw, d := Look(w, n, name).raw, Enter(w, n).ino;
    var s := TreeIn(vols[raw.fs]);
    TreeOfRoot(vols, raw.fs);
    assert Ent(s, d, name) == raw.ino;
  }

  lemma {:induction false} WholeName(name: Text, i: nat)
    requires !HasSlash(name) && i <= |name|
    ensures NextSlash(name, i) == |name|
    decreases |name| - i
  {
    if i < |name| { WholeName(name, i + 1); }
  }

  /** While all mounted partitions have labels, entering a mountpoint leads to its partition's root and leaving leads back. */
  lemma MountLeads(labels: seq<Text>, w: World, i: nat)
    requires Sound(w) && i < |w.mountpoint| && w.mountpoint[i] != 0 && Alone(labels, w)
    requires forall j: nat :: j < |w.mountpoint| && w.mountpoint[j] != 0 ==> Labelled(labels, w, j)
    ensures var n := Node(w.root, w.mountpoint[i]);
            Enter(w, n) == Node(i, ROOT_INODE) && Leave(w, Enter(w, n)) == n
  {
    var n := Node(w.root, w.mountpoint[i]);
    MountedFirst(w, n.ino, 0);
    LeaveEnter(w, n);
  }

  /** One component that is not a link. */
  lemma OneHop(u: World, n: Node, name: Text, rest: Text, budget: nat)
    requires 0 < |name| < NAME_LEN && !HasSlash(name) && (rest == [] || rest[0] == SLASH)
    requires Look(u, n, name).Hop? && !IsLink(u, Look(u, n, name).raw)
    ensures Eval(u, n, name + rest, true, budget) == Eval(u, Leave(u, Look(u, n, name).raw), rest, true, budget)
  {
    hide Look, Leave, IsLink;
    var text := name + rest;
    var j := NextSlash(text, 0);
    assert j == |name| by {
      assert forall k :: 0 <= k < |name| ==> text[k] == name[k];
      assert rest != [] ==> text[|name|] == SLASH;
    }
    assert text[..j] == name && text[j..] == rest;
  }

  /** A link in front of the last slash. */
  lemma OneLink(u: World, n: Node, name: Text, budget: nat)
    requires 0 < |name| < NAME_LEN && !HasSlash(name) && budget > 0
    requires Look(u, n, name).Hop? && IsLink(u, Look(u, n, name).raw) && !IsAbsolute(Target(u, Look(u, n, name).raw))
    requires Eval(u, n, Target(u, Look(u, n, name).raw), true, budget - 1).Yes?
    ensures Eval(u, n, [SLASH] + name + [SLASH], false, budget) == Eval(u, n, Target(u, Look(u, n, name).raw), true, budget - 1)
  {
    hide Look, Leave, IsLink, Target, IsAbsolute;
    var text := name + [SLASH];
    assert ([SLASH] + name + [SLASH])[1..] == text;
    var j := NextSlash(text, 0);
    assert j == |name| by { assert text[|name|] == SLASH && forall k :: 0 <= k < |name| ==> text[k] == name[k]; }
    assert text[..j] == name && text[j..] == [SLASH];
    var mid := Eval(u, n, Target(u, Look(u, n, name).raw), true, budget - 1);
    assert Eval(u, mid.node, [SLASH], false, mid.left) == mid by { assert [SLASH][1..] == []; }
  }

  /** A directory named a, where /mnt is a link to "a/..", and a partition mounted on it. */
  function LoopedWorld(): World {
    World([Partition(map[2 := map[[109, 110, 116] := 5, [97] := 4], 4 := map[]], map[5 := [97, 47, 46, 46]]),
           Partition(map[2 := map[[46, 46] := 2]], map[])], [0, 4], 0)
  }

  ghost predicate Looped(u: World) {
    && Top(u) == Node(0, 2) && Look(u, Node(0, 2), [109, 110, 116]) == Hop(Node(0, 5)) && Look(u, Node(0, 2), [97]) == Hop(Node(0, 4))
    && Look(u, Node(0, 4), [46, 46]) == Hop(Node(1, 2)) && Leave(u, Node(0, 4)) == Node(0, 4) && Leave(u, Node(1, 2)) == Node(0, 4)
    && !IsLink(u, Node(0, 4)) && !IsLink(u, Node(1, 2)) && IsLink(u, Node(0, 5)) && Target(u, Node(0, 5)) == [97, 47, 46, 46]
  }

  lemma LoopedHops(w: World)
    requires w == LoopedWorld()
    ensures Looped(Visible(w))
  {
    hide Visible;
    LoopedLooks(w);
    SeenIff(w, Node(0, 4), [46, 46]);
    SeenIff(w, Node(0, 5), []);
    SeenIff(w, Node(1, 2), []);
    assert Enter(w, Node(0, 4)) == Node(1, 2) by { assert MountedOn(w, 4, 1) == 1; }
  }

  lemma LoopedLooks(w: World)
    requires w == LoopedWorld()
    ensures Look(Visible(w), Node(0, 2), [109, 110, 116]) == Hop(Node(0, 5)) && Look(Visible(w), Node(0, 2), [97]) == Hop(Node(0, 4))
  {
    hide Visible;
    SeenIff(w, Node(0, 2), [109, 110, 116]);
    SeenIff(w, Node(0, 2), [97]);
    assert Enter(w, Node(0, 2)) == Node(0, 2) by { assert MountedOn(w, 2, 1) == 2; }
  }

  lemma LoopedWalk(u: World)
    requires Looped(u)
    ensures Eval(u, Node(0, 2), [97, 47, 46, 46], true, 7) == Yes(Node(0, 4), 7)
  {
    hide Eval, Look, Leave, IsLink, Target, Enter;
    OneHop(u, Node(0, 2), [97], [47, 46, 46], 7);
    assert [97] + [47, 46, 46] == [97, 47, 46, 46] && [47] + [46, 46] == [47, 46, 46] && [46, 46] + [] == [46, 46];
    SkipSlash(u, Node(0, 4), [46, 46], 7);
    OneHop(u, Node(0, 4), [46, 46], [], 7);
    EvalEnd(u, Node(0, 4), 7);
  }

  /**
   * A volume name that starts with NUL and is not blank gives the empty label, which is mounted where "/mnt/" leads.
   * That can be the mountpoint of another partition, where the lookup turns back at the root of that partition.
   */
  lemma EmptyLabelShares(w: World)
    requires w == LoopedWorld()
    ensures Sound(w) && w.mountpoint[1] in w.parts[w.root].dirs
    ensures MountDir(w, []).Yes? && MountDir(w, []).node == Node(w.root, w.mountpoint[1])
  {
    LoopedHops(w);
    LoopedWalk(Visible(w));
    LoopedEnd(Visible(w));
    hide Visible, Eval;
  }

  lemma LoopedEnd(u: World)
    requires Looped(u) && Eval(u, Node(0, 2), [97, 47, 46, 46], true, 7) == Yes(Node(0, 4), 7)
    ensures Eval(u, Top(u), SEED + [], false, SYMLINK_MAX_DEPTH) == Yes(Node(0, 4), 7)
  {
    hide Eval, Look, Leave, IsLink, Target, Enter;
    OneLink(u, Node(0, 2), [109, 110, 116], 8);
    assert [SLASH] + [109, 110, 116] + [SLASH] == SEED + [];
  }

  lemma SkipSlash(u: World, n: Node, text: Text, budget: nat)
    ensures Eval(u, n, [SLASH] + text, true, budget) == Eval(u, n, text, true, budget)
  {
    assert ([SLASH] + text)[1..] == text;
  }

  lemma EvalEnd(u: World, n: Node, budget: nat)
    ensures Eval(u, n, [], true, budget) == Yes(n, budget)
  {
  }
}
