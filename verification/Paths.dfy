/**
 * lookup_path (kernel/fs/ext2/directoryController.c) and the mount table (kernel/fs/mount/mount.c): resolving a path
 * by splicing link targets into its text, against resolving it component by component.
 */
module Paths {
  import opened Blocks

  type Text = seq<byte>

  const SLASH: byte := 47
  const PATH_LEN: nat := 4096
  const NAME_LEN: nat := 256
  const SYMLINK_MAX_DEPTH: nat := 8
  const ROOT_INODE: nat := 2

  /** A partition as path lookup sees it: its directories and its symbolic links. */
  datatype Partition = Partition(dirs: map<nat, map<Text, nat>>, links: map<nat, Text>)

  /** fs_entries: the partitions, where each is mounted (0: nowhere), and which one is the root. */
  datatype World = World(parts: seq<Partition>, mountpoint: seq<nat>, root: nat)

  datatype Node = Node(fs: nat, ino: nat)

  ghost predicate Sound(w: World) {
    |w.mountpoint| == |w.parts| && w.root < |w.parts| && w.mountpoint[w.root] == 0
  }

  function Top(w: World): Node {
    Node(w.root, 2)
  }

  // ----- mounts

  /** The partition mounted on an inode of the root file system, searched from `part` on. */
  function MountedOn(w: World, ino: nat, part: nat): nat
    decreases |w.mountpoint| - part
  {
    if part >= |w.mountpoint| || w.mountpoint[part] == ino then part else MountedOn(w, ino, part + 1)
  }

  /** return_mnt_root: from a mountpoint to the root of what is mounted there. */
  function Enter(w: World, n: Node): Node {
    if n.fs != w.root then n
    else
      var part := MountedOn(w, n.ino, 0);
      if part < |w.mountpoint| then Node(part, 2) else n
  }

  /** return_mnt_mountpoint: from a mounted root back to its mountpoint. */
  function Leave(w: World, n: Node): Node {
    if n.fs == w.root || n.ino != 2 || n.fs >= |w.mountpoint| then n else Node(w.root, w.mountpoint[n.fs])
  }

  /** Never the root of a mounted partition: that is always given as its mountpoint. */
  predicate Normal(w: World, n: Node) {
    n.fs == w.root || n.ino != ROOT_INODE || n.fs >= |w.mountpoint|
  }

  lemma {:induction false} MountedFirst(w: World, ino: nat, part: nat)
    requires part <= |w.mountpoint|
    ensures part <= MountedOn(w, ino, part) <= |w.mountpoint|
    ensures MountedOn(w, ino, part) < |w.mountpoint| ==> w.mountpoint[MountedOn(w, ino, part)] == ino
    ensures forall i :: part <= i < MountedOn(w, ino, part) ==> w.mountpoint[i] != ino
    decreases |w.mountpoint| - part
  {
    if part < |w.mountpoint| && w.mountpoint[part] != ino { MountedFirst(w, ino, part + 1); }
  }

  /** Stepping into a mount and back out returns to the mountpoint. */
  lemma LeaveEnter(w: World, n: Node)
    requires Sound(w) && Normal(w, n) && n.ino != 0
    ensures Leave(w, Enter(w, n)) == n
  {
    MountedFirst(w, n.ino, 0);
  }

  // ----- one component

  datatype Hop = Missing | Hop(raw: Node)

  /** Looking a name up in the directory at n, behind whatever is mounted on it. */
  function Look(w: World, n: Node, name: Text): Hop {
    var e := Enter(w, n);
    if e.fs < |w.parts| && e.ino in w.parts[e.fs].dirs && name in w.parts[e.fs].dirs[e.ino]
    then Hop(Node(e.fs, w.parts[e.fs].dirs[e.ino][name])) else Missing
  }

  /** Every byte is below 0x80, as in the names that the directory scans can match. */
  predicate Ascii(t: Text) {
    forall i :: 0 <= i < |t| ==> t[i] < 0x80
  }

  /** The world as the directory scans see it: without the names that have a byte of 0x80 or more. */
  function Visible(w: World): World {
    w.(parts := seq(|w.parts|, i requires 0 <= i < |w.parts| => VisiblePart(w.parts[i])))
  }

  function VisiblePart(p: Partition): Partition {
    p.(dirs := map d | d in p.dirs :: VisibleDir(p.dirs[d]))
  }

  function VisibleDir(dir: map<Text, nat>): map<Text, nat> {
    map x | x in dir && Ascii(x) :: dir[x]
  }

  /** A name that is there is seen exactly if it is ASCII. */
  lemma SeenIff(w: World, n: Node, name: Text)
    ensures Look(Visible(w), n, name) == if Ascii(name) then Look(w, n, name) else Missing
    ensures Top(Visible(w)) == Top(w) && Enter(Visible(w), n) == Enter(w, n) && Leave(Visible(w), n) == Leave(w, n) && IsLink(Visible(w), n) == IsLink(w, n)
    ensures IsLink(w, n) ==> Target(Visible(w), n) == Target(w, n)
  {
    SameMounts(w, n.ino, 0);
  }

  lemma {:induction false} SameMounts(w: World, ino: nat, part: nat)
    ensures MountedOn(Visible(w), ino, part) == MountedOn(w, ino, part)
    decreases |w.mountpoint| - part
  {
    if part < |w.mountpoint| { SameMounts(w, ino, part + 1); }
  }

  predicate IsLink(w: World, n: Node) {
    n.fs < |w.parts| && n.ino in w.parts[n.fs].links
  }

  function Target(w: World, n: Node): Text
    requires IsLink(w, n)
  {
    w.parts[n.fs].links[n.ino]
  }

  predicate IsAbsolute(t: Text) {
    t != [] && t[0] == SLASH
  }

  function NextSlash(p: Text, i: nat): (j: nat)
    requires i <= |p|
    ensures i <= j <= |p| && (j < |p| ==> p[j] == SLASH) && forall k :: i <= k < j ==> p[k] != SLASH
    decreases |p| - i
  {
    if i == |p| || p[i] == SLASH then i else NextSlash(p, i + 1)
  }

  // ----- the reference: component by component, links resolved where they stand

  datatype Result = No | Yes(node: Node, left: nat)

  /**
   * Where `text` leads from directory `dir`.  A link's target is resolved from the directory that holds the link (or
   * from the top, if absolute), and the rest of the text from where that leads.  `budget` bounds the links followed.
   */
  function Eval(w: World, dir: Node, text: Text, follow: bool, budget: nat): (r: Result)
    ensures r.Yes? ==> r.left <= budget
    decreases budget, |text|
  {
    if text == [] then Yes(dir, budget)
    else
      var j := NextSlash(text, 0);
      if j == 0 then Eval(w, dir, text[1..], follow, budget)
      else if j >= 256 then No
      else
        var hop := Look(w, dir, text[..j]);
        if hop.Missing? then No
        else if j == |text| && !follow then Yes(Leave(w, hop.raw), budget)
        else if !IsLink(w, hop.raw) then Eval(w, Leave(w, hop.raw), text[j..], follow, budget)
        else if budget == 0 then No
        else
          var mid := Eval(w, if IsAbsolute(Target(w, hop.raw)) then Top(w) else dir, Target(w, hop.raw), true, budget - 1);
          if mid.No? then No else Eval(w, mid.node, text[j..], follow, mid.left)
  }

  /** Whatever is reached by names that are seen is where the path leads. */
  lemma {:induction false} SeenIsRight(w: World, dir: Node, text: Text, follow: bool, budget: nat)
    ensures var e := Eval(Visible(w), dir, text, follow, budget); e.Yes? ==> e == Eval(w, dir, text, follow, budget)
    decreases budget, |text|
  {
    if text != [] {
      var j := NextSlash(text, 0);
      if j == 0 {
        SeenIsRight(w, dir, text[1..], follow, budget);
      } else if j < NAME_LEN {
        var hop := Look(Visible(w), dir, text[..j]);
        SeenIff(w, dir, text[..j]);
        if hop.Hop? {
          SeenIff(w, hop.raw, []);
          SeenFrom(w, dir, text, j, hop.raw, follow, budget);
        }
      }
    }
  }

  lemma {:induction false} SeenFrom(w: World, dir: Node, text: Text, j: nat, raw: Node, follow: bool, budget: nat)
    requires 0 < j == NextSlash(text, 0) && j < NAME_LEN && j <= |text|
    requires Look(w, dir, text[..j]) == Hop(raw) && Look(Visible(w), dir, text[..j]) == Hop(raw)
    requires Top(Visible(w)) == Top(w) && Leave(Visible(w), raw) == Leave(w, raw) && IsLink(Visible(w), raw) == IsLink(w, raw)
    requires IsLink(w, raw) ==> Target(Visible(w), raw) == Target(w, raw)
    ensures var e := Eval(Visible(w), dir, text, follow, budget); e.Yes? ==> e == Eval(w, dir, text, follow, budget)
    decreases budget, |text|, 0
  {
    hide Look, Visible;
    if !IsLink(w, raw) {
      SeenIsRight(w, Leave(w, raw), text[j..], follow, budget);
    } else if budget > 0 {
      var t := Target(w, raw);
      var from := if IsAbsolute(t) then Top(w) else dir;
      SeenIsRight(w, from, t, true, budget - 1);
      var mid := Eval(Visible(w), from, t, true, budget - 1);
      if mid.Yes? { SeenIsRight(w, mid.node, text[j..], follow, mid.left); }
    }
  }

  ghost predicate TargetsAscii(w: World) {
    forall i, l :: 0 <= i < |w.parts| && l in w.parts[i].links ==> Ascii(w.parts[i].links[l])
  }

  /** With ASCII texts and targets the scans see every name that matters. */
  lemma {:induction false} AsciiIsSeen(w: World, dir: Node, text: Text, follow: bool, budget: nat)
    requires Ascii(text) && TargetsAscii(w)
    ensures Eval(Visible(w), dir, text, follow, budget) == Eval(w, dir, text, follow, budget)
    decreases budget, |text|
  {
    if text != [] {
      var j := NextSlash(text, 0);
      if j == 0 {
        AsciiIsSeen(w, dir, text[1..], follow, budget);
      } else if j < NAME_LEN {
        var hop := Look(w, dir, text[..j]);
        SeenIff(w, dir, text[..j]);
        if hop.Hop? {
          SeenIff(w, hop.raw, []);
          AsciiFrom(w, dir, text, j, hop.raw, follow, budget);
        }
      }
    }
  }

  lemma {:induction false} AsciiFrom(w: World, dir: Node, text: Text, j: nat, raw: Node, follow: bool, budget: nat)
    requires Ascii(text) && TargetsAscii(w) && 0 < j == NextSlash(text, 0) && j < NAME_LEN && j <= |text|
    requires Look(w, dir, text[..j]) == Hop(raw) && Look(Visible(w), dir, text[..j]) == Hop(raw)
    requires Top(Visible(w)) == Top(w) && Leave(Visible(w), raw) == Leave(w, raw) && IsLink(Visible(w), raw) == IsLink(w, raw)
    requires IsLink(w, raw) ==> Target(Visible(w), raw) == Target(w, raw)
    ensures Eval(Visible(w), dir, text, follow, budget) == Eval(w, dir, text, follow, budget)
    decreases budget, |text|, 0
  {
    hide Look, Visible;
    if !IsLink(w, raw) {
      AsciiIsSeen(w, Leave(w, raw), text[j..], follow, budget);
    } else if budget > 0 {
      var t := Target(w, raw);
      var from := if IsAbsolute(t) then Top(w) else dir;
      AsciiIsSeen(w, from, t, true, budget - 1);
      var mid := Eval(w, from, t, true, budget - 1);
      if mid.Yes? { AsciiIsSeen(w, mid.node, text[j..], follow, mid.left); }
    }
  }

  lemma SlashInFront(t: Text, rest: Text)
    requires t != [] && t[0] != SLASH && (rest == [] || rest[0] == SLASH)
    ensures NextSlash(t + rest, 0) == NextSlash(t, 0)
  {
    assert forall k :: 0 <= k < |t| ==> (t + rest)[k] == t[k];
    assert rest != [] ==> (t + rest)[|t|] == rest[0];
  }

  /** A larger budget leads to the same place, and so does a smaller one that covers the links on the way. */
  lemma {:induction false} EvalShift(w: World, dir: Node, text: Text, follow: bool, budget: nat, extra: nat)
    ensures var a, b := Eval(w, dir, text, follow, budget), Eval(w, dir, text, follow, budget + extra);
            (a.Yes? ==> b == Yes(a.node, a.left + extra)) && (b.Yes? && b.left >= extra ==> a == Yes(b.node, b.left - extra))
    decreases budget, |text|
  {
    hide Look, Leave;
    if text != [] {
      var j := NextSlash(text, 0);
      if j == 0 {
        EvalShift(w, dir, text[1..], follow, budget, extra);
      } else if j < NAME_LEN && Look(w, dir, text[..j]).Hop? {
        ShiftFrom(w, dir, text, j, Look(w, dir, text[..j]).raw, follow, budget, extra);
      }
    }
  }

  lemma {:induction false} ShiftFrom(w: World, dir: Node, text: Text, j: nat, raw: Node, follow: bool, budget: nat, extra: nat)
    requires 0 < j == NextSlash(text, 0) && j < NAME_LEN && j <= |text| && Look(w, dir, text[..j]) == Hop(raw)
    ensures var a, b := Eval(w, dir, text, follow, budget), Eval(w, dir, text, follow, budget + extra);
            (a.Yes? ==> b == Yes(a.node, a.left + extra)) && (b.Yes? && b.left >= extra ==> a == Yes(b.node, b.left - extra))
    decreases budget, |text|, 0
  {
    hide Look, Leave;
    if !IsLink(w, raw) {
      EvalShift(w, Leave(w, raw), text[j..], follow, budget, extra);
    } else if budget > 0 {
      var from := if IsAbsolute(Target(w, raw)) then Top(w) else dir;
      EvalShift(w, from, Target(w, raw), true, budget - 1, extra);
      var mid := Eval(w, from, Target(w, raw), true, budget - 1);
      if mid.Yes? { EvalShift(w, mid.node, text[j..], follow, mid.left, extra); }
    }
  }

  /** Resolving two texts one after the other: what "the target and then the remaining components" means. */
  lemma {:induction false} EvalJoin(w: World, dir: Node, t: Text, rest: Text, follow: bool, budget: nat)
    requires (rest == [] || rest[0] == SLASH) && (rest != [] || follow)
    ensures Eval(w, dir, t + rest, follow, budget) ==
            var mid := Eval(w, dir, t, true, budget); if mid.No? then No else Eval(w, mid.node, rest, follow, mid.left)
    decreases budget, |t|
  {
    if t == [] {
      assert t + rest == rest;
    } else if t[0] == SLASH {
      assert (t + rest)[1..] == t[1..] + rest;
      EvalJoin(w, dir, t[1..], rest, follow, budget);
    } else {
      SlashInFront(t, rest);
      var j := NextSlash(t, 0);
      assert (t + rest)[..j] == t[..j] && (t + rest)[j..] == t[j..] + rest;
      var hop := Look(w, dir, t[..j]);
      if j < NAME_LEN && hop.Hop? {
        if !IsLink(w, hop.raw) {
          EvalJoin(w, Leave(w, hop.raw), t[j..], rest, follow, budget);
        } else if budget > 0 {
          var mid := Eval(w, if IsAbsolute(Target(w, hop.raw)) then Top(w) else dir, Target(w, hop.raw), true, budget - 1);
          if mid.Yes? { EvalJoin(w, mid.node, t[j..], rest, follow, mid.left); }
        }
      }
    }
  }

  // ----- the code: one pass over the text, then again over the spliced text

  datatype Pass = Arrive(node: Node) | Fail | TooLong | Again(text: Text)

  /** The text after the link at p[ind..j] has been replaced by its target. */
  function Spliced(p: Text, ind: nat, j: nat, t: Text): Text
    requires ind <= j <= |p|
  {
    (if IsAbsolute(t) then [] else p[..ind]) + t + p[j..]
  }

  /** One pass of lookup_path from offset ind on, standing at cur. */
  function Scan(w: World, p: Text, ind: nat, cur: Node, follow: bool): Pass
    decreases |p| - ind
  {
    if ind >= |p| then Arrive(cur)
    else
      var j := NextSlash(p, ind);
      if j == ind then Scan(w, p, j + 1, cur, follow)
      else if j - ind >= NAME_LEN then Fail
      else
        var hop := Look(w, cur, p[ind..j]);
        if hop.Missing? then Fail
        else if j == |p| && !follow then Arrive(Leave(w, hop.raw))
        else if !IsLink(w, hop.raw) then Scan(w, p, j + 1, Leave(w, hop.raw), follow)
        else
          var q := Spliced(p, ind, j, Target(w, hop.raw));
          if |q| >= PATH_LEN then TooLong else Again(q)
  }

  /** Up to `passes` passes, each over the text the last one left. */
  function Resolve(w: World, p: Text, follow: bool, passes: nat): Pass
    decreases passes
  {
    if passes == 0 then Fail
    else if |p| >= PATH_LEN then TooLong
    else
      var r := Scan(w, p, 1, Top(w), follow);
      if r.Again? then Resolve(w, r.text, follow, passes - 1) else r
  }

  // ----- why splicing is right

  /** Walking `pre` from the top leads to `dir` without meeting a link, and ends at a component boundary. */
  ghost predicate Clean(w: World, pre: Text, dir: Node) {
    forall rest: Text, follow: bool, budget: nat :: Eval(w, Top(w), pre + rest, follow, budget) == Eval(w, dir, rest, follow, budget)
  }

  lemma CleanAt(w: World, pre: Text, dir: Node, rest: Text, follow: bool, budget: nat)
    requires Clean(w, pre, dir)
    ensures Eval(w, Top(w), pre + rest, follow, budget) == Eval(w, dir, rest, follow, budget)
  {
    hide Eval;
  }

  lemma CleanTop(w: World)
    ensures Clean(w, [SLASH], Top(w))
  {
    forall rest: Text, follow: bool, budget: nat
      ensures Eval(w, Top(w), [SLASH] + rest, follow, budget) == Eval(w, Top(w), rest, follow, budget)
    {
      assert ([SLASH] + rest)[1..] == rest;
    }
  }

  /** A further slash changes nothing. */
  lemma CleanSlash(w: World, pre: Text, dir: Node)
    requires Clean(w, pre, dir)
    ensures Clean(w, pre + [SLASH], dir)
  {
    forall rest: Text, follow: bool, budget: nat
      ensures Eval(w, Top(w), pre + [SLASH] + rest, follow, budget) == Eval(w, dir, rest, follow, budget)
    {
      assert pre + [SLASH] + rest == pre + ([SLASH] + rest);
      assert ([SLASH] + rest)[1..] == rest;
    }
  }

  /** A component that is not a link moves on to what it names. */
  lemma CleanName(w: World, pre: Text, dir: Node, name: Text)
    requires Clean(w, pre, dir) && 0 < |name| < NAME_LEN && (forall k :: 0 <= k < |name| ==> name[k] != SLASH)
    requires Look(w, dir, name).Hop? && !IsLink(w, Look(w, dir, name).raw)
    ensures Clean(w, pre + name + [SLASH], Leave(w, Look(w, dir, name).raw))
  {
    var next := Leave(w, Look(w, dir, name).raw);
    forall rest: Text, follow: bool, budget: nat
      ensures Eval(w, Top(w), pre + name + [SLASH] + rest, follow, budget) == Eval(w, next, rest, follow, budget)
    {
      var tail := [SLASH] + rest;
      assert pre + name + [SLASH] + rest == pre + (name + tail);
      SlashInFront(name, tail);
      NoSlash(name);
      assert (name + tail)[..|name|] == name && (name + tail)[|name|..] == tail;
      assert Eval(w, dir, name + tail, follow, budget) == Eval(w, next, tail, follow, budget);
      assert tail[1..] == rest;
    }
  }

  lemma NoSlash(name: Text)
    requires forall k :: 0 <= k < |name| ==> name[k] != SLASH
    ensures NextSlash(name, 0) == |name|
  {
  }

  /** The splice preserves meaning: the spliced text, with one link less to go, leads where the text did. */
  lemma SplicePreserves(w: World, p: Text, ind: nat, j: nat, dir: Node, follow: bool, budget: nat)
    requires ind < j <= |p| && j == NextSlash(p, ind) && Clean(w, p[..ind], dir) && j - ind < NAME_LEN
    requires Look(w, dir, p[ind..j]).Hop? && IsLink(w, Look(w, dir, p[ind..j]).raw) && (j < |p| || follow)
    ensures var q := Spliced(p, ind, j, Target(w, Look(w, dir, p[ind..j]).raw));
            Eval(w, Top(w), p, follow, budget) == if budget == 0 then No else Eval(w, Top(w), q, follow, budget - 1)
  {
    hide Clean, Eval, Look, IsLink;
    var t := Target(w, Look(w, dir, p[ind..j]).raw);
    var q, rest := Spliced(p, ind, j, t), p[j..];
    LinkHere(w, p, ind, j, dir, follow, budget);
    if budget > 0 {
      if IsAbsolute(t) {
        assert q == t + rest;
        EvalJoin(w, Top(w), t, rest, follow, budget - 1);
      } else {
        assert q == p[..ind] + (t + rest);
        CleanAt(w, p[..ind], dir, t + rest, follow, budget - 1);
        EvalJoin(w, dir, t, rest, follow, budget - 1);
      }
    }
  }

  lemma LinkHere(w: World, p: Text, ind: nat, j: nat, dir: Node, follow: bool, budget: nat)
    requires ind < j <= |p| && j == NextSlash(p, ind) && Clean(w, p[..ind], dir) && j - ind < NAME_LEN
    requires Look(w, dir, p[ind..j]).Hop? && IsLink(w, Look(w, dir, p[ind..j]).raw) && (j < |p| || follow)
    ensures var t := Target(w, Look(w, dir, p[ind..j]).raw);
            Eval(w, Top(w), p, follow, budget) ==
            if budget == 0 then No
            else
              var mid := Eval(w, if IsAbsolute(t) then Top(w) else dir, t, true, budget - 1);
              if mid.No? then No else Eval(w, mid.node, p[j..], follow, mid.left)
  {
    hide Clean, Look, IsLink;
    assert p == p[..ind] + p[ind..];
    var here := p[ind..];
    CleanAt(w, p[..ind], dir, here, follow, budget);
    ShiftSlash(p, ind);
    assert here[..j - ind] == p[ind..j] && here[j - ind..] == p[j..];
  }

  lemma ShiftSlash(p: Text, ind: nat)
    requires ind <= |p|
    ensures NextSlash(p[ind..], 0) == NextSlash(p, ind) - ind
  {
    var j := NextSlash(p, ind);
    assert forall k :: 0 <= k < |p| - ind ==> p[ind..][k] == p[ind + k];
  }

  /** What one pass finds out about the meaning of the text. */
  ghost predicate Means(w: World, p: Text, follow: bool, budget: nat, r: Pass) {
    var e := Eval(w, Top(w), p, follow, budget);
    && (r.Arrive? ==> e == Yes(r.node, budget))
    && (r.Fail? || (r.TooLong? && budget == 0) ==> e == No)
    && (r.Again? ==> e == if budget == 0 then No else Eval(w, Top(w), r.text, follow, budget - 1))
  }

  /** One component of the reference that is not a link to follow. */
  lemma EvalStep(w: World, dir: Node, text: Text, j: nat, follow: bool, budget: nat)
    requires text != [] && j == NextSlash(text, 0) && j > 0
    ensures j >= NAME_LEN || Look(w, dir, text[..j]).Missing? ==> Eval(w, dir, text, follow, budget) == No
    ensures j < NAME_LEN && Look(w, dir, text[..j]).Hop? && j == |text| && (!follow || !IsLink(w, Look(w, dir, text[..j]).raw)) ==>
              Eval(w, dir, text, follow, budget) == Yes(Leave(w, Look(w, dir, text[..j]).raw), budget)
  {
    hide Look, IsLink;
    if j == |text| { assert text[j..] == []; }
  }

  lemma {:induction false} ScanMeans(w: World, p: Text, ind: nat, cur: Node, follow: bool, budget: nat)
    requires ind <= |p| && Clean(w, p[..ind], cur)
    ensures Means(w, p, follow, budget, Scan(w, p, ind, cur, follow))
    decreases |p| - ind
  {
    hide Clean, Look, IsLink, Eval;
    if ind < |p| {
      var j := NextSlash(p, ind);
      if j == ind {
        hide Means;
        assert p[..j + 1] == p[..ind] + [SLASH];
        CleanSlash(w, p[..ind], cur);
        ScanMeans(w, p, j + 1, cur, follow, budget);
      } else {
        hide Means, Scan;
        ScanName(w, p, ind, j, cur, follow, budget);
      }
    } else {
      AtEnd(w, p, cur, follow, budget);
    }
  }

  lemma AtEnd(w: World, p: Text, cur: Node, follow: bool, budget: nat)
    requires Clean(w, p[..|p|], cur)
    ensures Eval(w, Top(w), p, follow, budget) == Yes(cur, budget)
  {
    hide Clean;
    CleanAt(w, p[..|p|], cur, [], follow, budget);
    assert p[..|p|] + [] == p;
  }

  lemma {:induction false} ScanName(w: World, p: Text, ind: nat, j: nat, cur: Node, follow: bool, budget: nat)
    requires ind < j <= |p| && j == NextSlash(p, ind) && Clean(w, p[..ind], cur)
    ensures Means(w, p, follow, budget, Scan(w, p, ind, cur, follow))
    decreases |p| - ind, 0
  {
    hide Clean, Look, IsLink, Eval;
    var here, name := p[ind..], p[ind..j];
    assert p == p[..ind] + here;
    CleanAt(w, p[..ind], cur, here, follow, budget);
    ShiftSlash(p, ind);
    assert here[..j - ind] == name;
    EvalStep(w, cur, here, j - ind, follow, budget);
    var hop := Look(w, cur, name);
    if j - ind < NAME_LEN && hop.Hop? && (j < |p| || follow) {
      if IsLink(w, hop.raw) {
        SplicePreserves(w, p, ind, j, cur, follow, budget);
      } else if j < |p| {
        hide Means;
        CleanName(w, p[..ind], cur, name);
        assert p[..j + 1] == p[..ind] + name + [SLASH];
        ScanMeans(w, p, j + 1, Leave(w, hop.raw), follow, budget);
      }
    }
  }

  /**
   * Textual splicing agrees with resolving link by link, with eight links to follow, unless a spliced text does not fit
   * the buffer.
   */
  lemma {:induction false} SplicingIsResolving(w: World, p: Text, follow: bool, passes: nat)
    requires IsAbsolute(p) && passes > 0
    ensures var r, e := Resolve(w, p, follow, passes), Eval(w, Top(w), p, follow, passes - 1);
            && (r.Arrive? ==> e.Yes? && e.node == r.node)
            && (r.Fail? ==> e.No?)
            && !r.Again?
    decreases passes
  {
    hide Clean, Scan, Eval;
    if |p| < PATH_LEN {
      CleanTop(w);
      assert p[..1] == [SLASH];
      ScanMeans(w, p, 1, Top(w), follow, passes - 1);
      var r := Scan(w, p, 1, Top(w), follow);
      if r.Again? && passes > 1 {
        SplicedAbsolute(w, p, 1, Top(w), follow);
        SplicingIsResolving(w, r.text, follow, passes - 1);
      }
    }
  }

  lemma {:induction false} SplicedAbsolute(w: World, p: Text, ind: nat, cur: Node, follow: bool)
    requires IsAbsolute(p) && 0 < ind
    ensures Scan(w, p, ind, cur, follow).Again? ==> IsAbsolute(Scan(w, p, ind, cur, follow).text)
    decreases |p| - ind
  {
    if ind < |p| {
      var j := NextSlash(p, ind);
      if j == ind {
        SplicedAbsolute(w, p, j + 1, cur, follow);
      } else {
        var hop := Look(w, cur, p[ind..j]);
        if hop.Hop? && !IsLink(w, hop.raw) { SplicedAbsolute(w, p, j + 1, Leave(w, hop.raw), follow); }
      }
    }
  }

  /** A mounted root is always given as its mountpoint. */
  lemma {:induction false} ScanNormal(w: World, p: Text, ind: nat, cur: Node, follow: bool)
    requires Normal(w, cur)
    ensures Scan(w, p, ind, cur, follow).Arrive? ==> Normal(w, Scan(w, p, ind, cur, follow).node)
    decreases |p| - ind
  {
    if ind < |p| {
      var j := NextSlash(p, ind);
      if j == ind {
        ScanNormal(w, p, j + 1, cur, follow);
      } else {
        var hop := Look(w, cur, p[ind..j]);
        if hop.Hop? && !IsLink(w, hop.raw) { ScanNormal(w, p, j + 1, Leave(w, hop.raw), follow); }
      }
    }
  }

  /** Every link target is at most m bytes long. */
  ghost predicate TargetsWithin(w: World, m: nat) {
    forall i, l :: 0 <= i < |w.parts| && l in w.parts[i].links ==> |w.parts[i].links[l]| <= m
  }

  /** A splice takes out a name of one byte at least and puts in a target. */
  lemma {:induction false} ScanGrowth(w: World, p: Text, ind: nat, cur: Node, follow: bool, m: nat)
    requires TargetsWithin(w, m)
    ensures var r := Scan(w, p, ind, cur, follow);
            (r.Again? ==> |r.text| <= |p| + m - 1) && (r.TooLong? ==> |p| + m - 1 >= PATH_LEN)
    decreases |p| - ind
  {
    if ind < |p| {
      var j := NextSlash(p, ind);
      if j == ind {
        ScanGrowth(w, p, j + 1, cur, follow, m);
      } else {
        var hop := Look(w, cur, p[ind..j]);
        if hop.Hop? && !IsLink(w, hop.raw) { ScanGrowth(w, p, j + 1, Leave(w, hop.raw), follow, m); }
      }
    }
  }

  /** Room for eight targets of m bytes, each in place of a name of one byte. */
  predicate HasRoom(n: nat, links: nat, m: nat) {
    m > 0 && n + links * (m - 1) < 4096
  }

  lemma RoomLess(n: nat, links: nat, m: nat)
    requires HasRoom(n, links, m) && links > 0
    ensures HasRoom(n + m - 1, links - 1, m) && n + m - 1 < PATH_LEN
  {
    OneLess(links, m - 1);
  }

  lemma OneLess(k: nat, d: nat)
    requires k > 0
    ensures k * d == (k - 1) * d + d && (k - 1) * d >= 0
  {
  }

  /** With that much room, a text gets too long only on a path that leads nowhere. */
  lemma {:induction false} RoomSuffices(w: World, p: Text, follow: bool, links: nat, m: nat)
    requires TargetsWithin(w, m) && HasRoom(|p|, links, m) && IsAbsolute(p)
    ensures Resolve(w, p, follow, links + 1).TooLong? ==> Eval(w, Top(w), p, follow, links).No?
    decreases links
  {
    hide Scan, Eval, Clean, TargetsWithin;
    assert |p| < PATH_LEN by { if links > 0 { RoomLess(|p|, links, m); } }
    CleanTop(w);
    assert p[..1] == [SLASH];
    ScanMeans(w, p, 1, Top(w), follow, links);
    var r := Scan(w, p, 1, Top(w), follow);
    if links > 0 {
      RoomLess(|p|, links, m);
      ScanGrowth(w, p, 1, Top(w), follow, m);
      if r.Again? {
        SplicedAbsolute(w, p, 1, Top(w), follow);
        RoomShorter(|r.text|, |p| + m - 1, links - 1, m);
        RoomSuffices(w, r.text, follow, links - 1, m);
      }
    }
  }

  lemma RoomShorter(n: nat, k: nat, links: nat, m: nat)
    requires n <= k && HasRoom(k, links, m)
    ensures HasRoom(n, links, m)
  {
  }

  // ----- and without that much room some path fails that leads somewhere

  function Slashes(n: nat): Text {
    seq(n, _ => SLASH)
  }

  /** Link number k of the chain: the name of the next one, or "." for the last, and slashes. */
  function ChainTarget(k: nat, m: nat): Text
    requires k < 8 && m > 0
  {
    [if k < 7 then 98 + k else 46] + Slashes(m - 1)
  }

  function ChainLink(l: nat, m: nat): Text
    requires 10 <= l < 18 && m > 0
  {
    ChainTarget(l - 10, m)
  }

  /** A root directory with eight links in a row, "a" to "h", all with targets of m bytes. */
  function ChainWorld(m: nat): World
    requires m > 0
  {
    var names: map<Text, nat> := map[[46] := 2, [97] := 10, [98] := 11, [99] := 12, [100] := 13, [101] := 14, [102] := 15, [103] := 16, [104] := 17];
    World([Partition(map[ROOT_INODE := names], map l: nat | 10 <= l < 18 :: ChainLink(l, m))], [0], 0)
  }

  /** A slash, the name of link k, and more slashes. */
  function ChainText(k: nat, r: nat): Text
    requires k < 8
  {
    [SLASH, 97 + k] + Slashes(r)
  }

  lemma ChainLook(m: nat, k: nat)
    requires m > 0 && k < 8
    ensures var w := ChainWorld(m);
            && Look(w, Top(w), [97 + k]) == Hop(Node(0, 10 + k)) && IsLink(w, Node(0, 10 + k)) && Target(w, Node(0, 10 + k)) == ChainTarget(k, m)
            && Look(w, Top(w), [46]) == Hop(Top(w)) && !IsLink(w, Top(w)) && Leave(w, Top(w)) == Top(w)
            && TargetsWithin(w, m) && Sound(w) && !IsAbsolute(ChainTarget(k, m)) && |ChainTarget(k, m)| == m
  {
    var w := ChainWorld(m);
    MountedFirst(w, ROOT_INODE, 0);
  }

  lemma {:induction false} EvalSlashes(w: World, dir: Node, n: nat, budget: nat)
    ensures Eval(w, dir, Slashes(n), true, budget) == Yes(dir, budget)
    decreases n
  {
    if n > 0 {
      assert Slashes(n)[1..] == Slashes(n - 1);
      EvalSlashes(w, dir, n - 1, budget);
    }
  }

  lemma FirstName(c: byte, r: nat)
    requires c != SLASH
    ensures var t := [c] + Slashes(r);
            NextSlash(t, 0) == 1 && t[..1] == [c] && t[1..] == Slashes(r) && t != []
  {
    var t := [c] + Slashes(r);
    assert t[0] == c && (r > 0 ==> t[1] == SLASH);
  }

  /** The chain leads to the root. */
  lemma {:induction false} ChainLeads(m: nat, k: nat, r: nat, budget: nat)
    requires m > 0 && k < 8 && budget >= 8 - k
    ensures var w := ChainWorld(m); Eval(w, Top(w), [97 + k] + Slashes(r), true, budget) == Yes(Top(w), budget - (8 - k))
    decreases 8 - k
  {
    hide Look, IsLink, ChainWorld, TargetsWithin, Leave;
    var w := ChainWorld(m);
    ChainLook(m, k);
    FirstName(97 + k, r);
    EvalSlashes(w, Top(w), r, budget - (8 - k));
    if k < 7 {
      ChainLeads(m, k + 1, m - 1, budget - 1);
      assert ChainTarget(k, m) == [97 + (k + 1)] + Slashes(m - 1);
    } else {
      FirstName(46, m - 1);
      EvalSlashes(w, Top(w), m - 1, budget - 1);
    }
  }

  /** The text grows by m - 1 bytes with every link, until it is too long. */
  lemma {:induction false} ChainGrows(m: nat, k: nat, r: nat, passes: nat)
    requires m > 0 && k < 8 && 2 + r < PATH_LEN && passes >= 8 - k && 2 + r + (8 - k) * (m - 1) >= PATH_LEN
    ensures Resolve(ChainWorld(m), ChainText(k, r), true, passes) == TooLong
    decreases 8 - k
  {
    hide Look, IsLink, ChainWorld, TargetsWithin, Leave;
    var w, p, q := ChainWorld(m), ChainText(k, r), ChainTarget(k, m);
    ChainLook(m, k);
    assert p[1] == 97 + k && (r > 0 ==> p[2] == SLASH);
    assert NextSlash(p, 1) == 2 && p[1..2] == [97 + k];
    var next := Spliced(p, 1, 2, q);
    assert |next| == 2 + r + m - 1;
    OneLess(8 - k, m - 1);
    if k == 7 { assert (7 - k) * (m - 1) == 0; }
    if |next| < PATH_LEN {
      assert next == ChainText(k + 1, r + m - 1) by { ChainNext(k, r, m); }
      ChainGrows(m, k + 1, r + m - 1, passes - 1);
    }
  }

  lemma ChainNext(k: nat, r: nat, m: nat)
    requires k < 7 && m > 0
    ensures Spliced(ChainText(k, r), 1, 2, ChainTarget(k, m)) == ChainText(k + 1, r + m - 1)
  {
    assert Slashes(m - 1) + Slashes(r) == Slashes(r + m - 1);
  }

  /** For texts of n bytes and targets of up to m bytes, lookups never fail for lack of room on a path that leads somewhere. */
  ghost predicate NeverShort(n: nat, m: nat) {
    forall w: World, p: Text, follow: bool ::
      |p| == n && IsAbsolute(p) && TargetsWithin(w, m) && Resolve(w, p, follow, 9).TooLong? ==>
        Eval(w, Top(w), p, follow, 8).No?
  }

  /** That is so exactly if the text leaves room for eight targets, or has no name in it. */
  lemma RoomExact(n: nat, m: nat)
    requires n < 4096 && m > 0
    ensures NeverShort(n, m) <==> n + 8 * (m - 1) < 4096 || n < 2
  {
    hide Eval, TargetsWithin, Scan;
    if HasRoom(n, SYMLINK_MAX_DEPTH, m) {
      forall w: World, p: Text, follow: bool | |p| == n && IsAbsolute(p) && TargetsWithin(w, m)
        ensures Resolve(w, p, follow, SYMLINK_MAX_DEPTH + 1).TooLong? ==> Eval(w, Top(w), p, follow, SYMLINK_MAX_DEPTH).No?
      {
        RoomSuffices(w, p, follow, SYMLINK_MAX_DEPTH, m);
      }
    } else if n < 2 {
      forall w: World, p: Text, follow: bool | |p| == n && IsAbsolute(p) && TargetsWithin(w, m)
        ensures Resolve(w, p, follow, SYMLINK_MAX_DEPTH + 1).TooLong? ==> Eval(w, Top(w), p, follow, SYMLINK_MAX_DEPTH).No?
      {
        NoNames(w, p, follow);
      }
    } else {
      LeadsButFails(n, m);
      assert Resolve(ChainWorld(m), ChainText(0, n - 2), true, SYMLINK_MAX_DEPTH + 1).TooLong?;
    }
  }

  lemma NoNames(w: World, p: Text, follow: bool)
    requires |p| < 2 && IsAbsolute(p)
    ensures Resolve(w, p, follow, SYMLINK_MAX_DEPTH + 1) == Arrive(Top(w))
  {
  }

  /** The failing family: any longer text or longer targets than there is room for. */
  lemma LeadsButFails(n: nat, m: nat)
    requires 2 <= n < PATH_LEN && m > 0 && !HasRoom(n, SYMLINK_MAX_DEPTH, m)
    ensures var w, p := ChainWorld(m), ChainText(0, n - 2);
            && |p| == n && IsAbsolute(p) && TargetsWithin(w, m) && Sound(w)
            && Eval(w, Top(w), p, true, SYMLINK_MAX_DEPTH) == Yes(Top(w), 0) && Resolve(w, p, true, SYMLINK_MAX_DEPTH + 1) == TooLong
  {
    hide Look, TargetsWithin, ChainWorld, Scan, Resolve;
    var w, p := ChainWorld(m), ChainText(0, n - 2);
    ChainLook(m, 0);
    ChainGrows(m, 0, n - 2, SYMLINK_MAX_DEPTH + 1);
    ChainLeads(m, 0, n - 2, SYMLINK_MAX_DEPTH);
    assert p[0] == SLASH && p[1..] == [97] + Slashes(n - 2);
  }

  /** Such as a path of 202 bytes and targets of 4000: it leads to the root, and its lookup fails. */
  lemma OneThatFails()
    ensures var w, p := ChainWorld(4000), ChainText(0, 200);
            Eval(w, Top(w), p, true, SYMLINK_MAX_DEPTH) == Yes(Top(w), 0) && Resolve(w, p, true, SYMLINK_MAX_DEPTH + 1) == TooLong
  {
    LeadsButFails(202, 4000);
  }

  // ----- lookup_path itself: NUL-terminated buffers, and two spare ones to splice into

  predicate Plain(t: Text) {
    forall k :: 0 <= k < |t| ==> t[k] != 0
  }

  /** The buffer holds this string. */
  ghost predicate Holds(p: array<byte>, t: Text)
    reads p
  {
    |t| < p.Length && p[..|t|] == t && p[|t|] == 0 && Plain(t)
  }

  datatype Outcome = Found(node: Node) | Failed | Replaced

  method Length(p: array<byte>, ghost t: Text) returns (len: nat)
    requires Holds(p, t)
    ensures len == if |t| < PATH_LEN then |t| else PATH_LEN
  {
    len := 0;
    while len < PATH_LEN
      invariant len <= |t| && len <= PATH_LEN
    {
      if p[len] == 0 { break; }
      assert len < |t|;
      len := len + 1;
    }
    assert len < |t| ==> p[len] == t[len];
  }

  method ComponentEnd(p: array<byte>, ghost t: Text, len: nat, ind: nat) returns (j: nat)
    requires Holds(p, t) && len == |t| && ind < len
    ensures j == NextSlash(t, ind)
  {
    var c := p[ind];
    j := ind;
    while c != SLASH
      invariant ind <= j <= len
      invariant c == if j == ind then t[ind] else t[j - 1]
      invariant forall k :: ind <= k < j - 1 ==> t[k] != SLASH
      decreases len + 1 - j
    {
      if j >= len {
        j := len + 1;
        break;
      }
      c := p[j];
      j := j + 1;
    }
    if j > ind { j := j - 1; }
  }

  /** Copies one stretch into the spliced text; stops short of the last byte of the buffer. */
  method PutText(dst: array<byte>, w0: nat, s: Text) returns (ok: bool, w: nat)
    requires dst.Length == PATH_LEN && w0 < PATH_LEN
    modifies dst
    ensures ok <==> w0 + |s| < PATH_LEN
    ensures ok ==> w == w0 + |s| && dst[..w] == old(dst[..w0]) + s
  {
    w := w0;
    for k := 0 to |s|
      invariant w == w0 + k < PATH_LEN && dst[..w] == old(dst[..w0]) + s[..k]
    {
      if w >= PATH_LEN - 1 { return false, w; }
      dst[w] := s[k];
      w := w + 1;
    }
    ok := true;
    assert s[..|s|] == s;
  }

  method Splice(dst: array<byte>, p: array<byte>, ghost t: Text, len: nat, ind: nat, j: nat, target: Text) returns (ok: bool)
    requires dst.Length == PATH_LEN && dst != p && Holds(p, t) && len == |t| < PATH_LEN && ind <= j <= len && Plain(target)
    modifies dst
    ensures ok <==> |Spliced(t, ind, j, target)| < PATH_LEN
    ensures ok ==> Holds(dst, Spliced(t, ind, j, target))
  {
    var w := 0;
    if !IsAbsolute(target) { ok, w := PutText(dst, w, p[..ind]); }
    ghost var head := dst[..w];
    assert head == if IsAbsolute(target) then [] else t[..ind];
    ok, w := PutText(dst, w, target);
    if !ok { return; }
    ok, w := PutText(dst, w, p[j..len]);
    if !ok { return; }
    dst[w] := 0;
    assert p[j..len] == t[j..];
    assert dst[..w] == Spliced(t, ind, j, target);
  }

  lemma SameStretch(s: Text, t: Text, i: nat, j: nat)
    requires |t| <= |s| && s[..|t|] == t && i <= j <= |t|
    ensures s[i..j] == t[i..j]
  {
    assert s[..|t|][i..j] == s[i..j];
  }
}
