/** Runs of the name-space operations: the directory tree stays a tree with unique names and exact link counts. */
module NamespaceRuns {
  import opened Blocks
  import opened Bitmaps
  import opened Volumes
  import opened FileSystem
  import opened DirBlock
  import opened DirFile
  import opened DirTree
  import opened Namespace
  import opened NamespaceOps
  import opened Symlinks

  datatype NsOp =
    | MkDirOp(d: nat, x: Name)
    | MkFileOp(d: nat, x: Name)
    | LinkOp(d: nat, x: Name, n: nat)
    | SymlinkOp(d: nat, x: Name, target: seq<byte>)
    | UnlinkOp(d: nat, x: Name)
    | RmDirOp(d: nat, x: Name)
    | RenameOp(d: nat, x: Name, q: nat, y: Name)

  /** What an operation does when it succeeds. */
  ghost predicate Effect(s: Ns, op: NsOp, s': Ns) {
    match op
    case MkDirOp(d, x) => exists n: nat :: NewDir(s, d, x, n, s')
    case MkFileOp(d, x) => exists n: nat :: NewFile(s, d, x, n, Regular, s')
    case LinkOp(d, x, n) => Linked1(s, d, x, n, s')
    case SymlinkOp(d, x, target) => exists n: nat :: NewFile(s, d, x, n, Symlink, s')
    case UnlinkOp(d, x) => Unlinked1(s, d, x, s')
    case RmDirOp(d, x) => RemovedDir(s, d, x, s')
    case RenameOp(d, x, q, y) => Renamed(s, d, x, q, y, s')
  }

  /** When an operation succeeds, given room. */
  ghost predicate Applies(s: Ns, op: NsOp) {
    match op
    case MkDirOp(d, x) => Free1(s, d, x)
    case MkFileOp(d, x) => Free1(s, d, x)
    case LinkOp(d, x, n) => Free1(s, d, x) && n in s.kinds && n !in s.dirs
    case SymlinkOp(d, x, target) => Free1(s, d, x) && 0 < |target| < 4096
    case UnlinkOp(d, x) => Ascii(x) && d in s.dirs && x in s.dirs[d] && s.dirs[d][x] !in s.dirs
    case RmDirOp(d, x) => Ascii(x) && exists n :: EmptyDir(s, d, x, n)
    case RenameOp(d, x, q, y) => MayRename(s, d, x, q, y)
  }

  ghost predicate Next(s: Ns, op: NsOp, s': Ns, scarce: bool) {
    (Applies(s, op) && Effect(s, op, s')) || (s' == s && (scarce || !Applies(s, op)))
  }

  /** The name that an operation gives is there already, but with a byte of 0x80 or more, so that no check sees it. */
  ghost predicate Clashes(s: Ns, op: NsOp) {
    if op.RenameOp? then Collides(s, op.q, op.y) else Makes(op) && Collides(s, op.d, op.x)
  }

  ghost predicate Named(s: Ns, d: nat, x: Name) {
    d in s.dirs && x in s.dirs[d]
  }

  /** The names with a byte of 0x80 or more: no operation removes one. */
  ghost predicate HighAre(s: Ns, high: set<(nat, Name)>) {
    forall d: nat, x: Name :: (d, x) in high <==> Named(s, d, x) && !Ascii(x)
  }

  /** s' has the names of s, as far as they have a byte of 0x80 or more, and x in d. */
  ghost predicate HighGrown(s: Ns, s': Ns, d: nat, x: Name) {
    forall e: nat, y: Name :: !Ascii(y) ==> (Named(s', e, y) <==> Named(s, e, y) || (e == d && y == x))
  }

  ghost predicate HighSame(s: Ns, s': Ns) {
    forall e: nat, y: Name :: !Ascii(y) ==> (Named(s', e, y) <==> Named(s, e, y))
  }

  function HighMore(high: set<(nat, Name)>, d: nat, x: Name): set<(nat, Name)> {
    if Ascii(x) then high else high + {(d, x)}
  }

  lemma HighKept(s: Ns, s': Ns, high: set<(nat, Name)>, d: nat, x: Name)
    requires HighAre(s, high)
    ensures HighGrown(s, s', d, x) ==> HighAre(s', HighMore(high, d, x))
    ensures HighSame(s, s') ==> HighAre(s', high)
  {
    hide Ascii, Named;
    if HighSame(s, s') {
      forall e: nat, y: Name ensures (e, y) in high <==> Named(s', e, y) && !Ascii(y) {}
    }
    if HighGrown(s, s', d, x) {
      forall e: nat, y: Name ensures (e, y) in HighMore(high, d, x) <==> Named(s', e, y) && !Ascii(y) {}
    }
  }

  lemma HighNewFile(s: Ns, d: nat, x: Name, n: nat, kind: Kind, s': Ns)
    requires NewFile(s, d, x, n, kind, s') && kind != Directory
    ensures HighGrown(s, s', d, x)
  {
    hide Ascii;
  }

  lemma HighNewDir(s: Ns, d: nat, x: Name, n: nat, s': Ns)
    requires NewDir(s, d, x, n, s')
    ensures HighGrown(s, s', d, x)
  {
    DotsAscii();
    hide Ascii;
  }

  lemma HighLinked(s: Ns, d: nat, x: Name, n: nat, s': Ns)
    requires Linked1(s, d, x, n, s')
    ensures HighGrown(s, s', d, x)
  {
    hide Ascii;
  }

  lemma HighUnlinked(s: Ns, d: nat, x: Name, s': Ns)
    requires Unlinked1(s, d, x, s') && Ascii(x) && s.dirs[d][x] !in s.dirs
    ensures HighSame(s, s')
  {
    hide Ascii;
  }

  lemma HighRemoved(s: Ns, d: nat, x: Name, n: nat, s': Ns)
    requires NsOK(s) && RemovedDir(s, d, x, s') && Ascii(x) && EmptyDir(s, d, x, n)
    ensures HighSame(s, s')
  {
    DotsAscii();
    TreeFacts(s);
    EmptyIsDots(s, d, x, n);
    HighEmptied(s, d, x, n);
  }

  lemma HighEmptied(s: Ns, d: nat, x: Name, n: nat)
    requires d in s.dirs && d in s.links && n in s.links && n in s.dirs && d != n && JustDots(s, n, d)
    requires Ascii(x) && Ascii(DOT) && Ascii(DOTDOT)
    ensures HighSame(s, RmDir(s, d, x, n))
  {
    hide Ascii;
    var s' := RmDir(s, d, x, n);
    forall e: nat, y: Name | !Ascii(y) ensures Named(s', e, y) <==> Named(s, e, y) {
      if e == n { assert y !in s.dirs[n].Keys; }
    }
  }

  lemma HighRenamed(s: Ns, p: nat, x: Name, q: nat, y: Name, s': Ns)
    requires Renamed(s, p, x, q, y, s') && Ascii(x)
    ensures HighGrown(s, s', q, y)
  {
    DotsAscii();
    hide Ascii;
    var c := s.dirs[p][x];
    if c in s.dirs { HighMoved(s, p, x, q, y, c); }
  }

  lemma HighMoved(s: Ns, p: nat, x: Name, q: nat, y: Name, c: nat)
    requires p in s.dirs && q in s.dirs && c in s.dirs && p in s.links && q in s.links && c in s.links && Ascii(x) && Ascii(DOTDOT)
    ensures HighGrown(s, MvDir(s, p, x, q, y, c), q, y)
  {
    hide Ascii;
    var s1 := Count(Unbind(Count(Bind(s, q, y, c), c, 1), p, x), c, -1);
    assert HighGrown(s, s1, q, y);
    if p != q {
      var s2 := Bind(s1, c, DOTDOT, q);
      assert HighSame(s1, s2);
      assert MvDir(s, p, x, q, y, c).dirs == s2.dirs;
    }
  }

  /** Few free blocks, or no free inode. */
  ghost predicate Scarce(fs: Volume)
    reads fs, fs.blocks, fs.inodes
  {
    fs.blocks.superFree < 13 || fs.inodes.superFree == 0
  }

  predicate CanGrow(itab: map<nat, Inode>, live: set<nat>, d: nat) {
    d in live && d in itab && itab[d].size + 4096 <= MAX_SIZE
  }

  predicate CString(x: Name) {
    forall i :: 0 <= i < |x| ==> x[i] != 0
  }

  /** The caller names live inodes by C strings, and the directories have not reached the size limit. */
  predicate Permitted(itab: map<nat, Inode>, live: set<nat>, op: NsOp) {
    && CString(op.x) && CanGrow(itab, live, op.d)
    && (op.RenameOp? ==> CString(op.y) && CanGrow(itab, live, op.q))
    && (op.LinkOp? ==> op.n in live)
  }

  lemma ParentFine(fs: Volume, live: set<nat>, d: nat)
    requires NsValid(fs) && live == TreeIn(fs).kinds.Keys && CanGrow(fs.itab, live, d)
    ensures ParentOK(fs, d)
  {
    hide Valid, AllDirs, Abs;
    LiveInTable(fs, d);
  }

  /** How an operation of a run ended: as it should, a make_dir out of space part-way, or a name given twice. */
  datatype Stop = Going | PartWay | Clash

  /** The new name is on the list of those that no check sees. */
  predicate OnList(high: set<(nat, Name)>, op: NsOp) {
    if op.RenameOp? then (op.q, op.y) in high && GoodName(op.y) else Makes(op) && (op.d, op.x) in high && GoodName(op.x)
  }

  lemma OnListIs(s: Ns, high: set<(nat, Name)>, op: NsOp)
    requires HighAre(s, high)
    ensures OnList(high, op) <==> Clashes(s, op)
  {
    hide Ascii;
  }

  /** The volume after an operation of a run. */
  ghost predicate After(s: Ns, op: NsOp, s': Ns, v': Vol, scarce: bool, stop: Stop) {
    match stop
    case Going => Next(s, op, s', scarce) && Stored(s, op, s', v')
    case PartWay => op.MkDirOp? && scarce
    case Clash => Clashes(s, op) && !AllDirs(v')
  }

  /** The target of a link that was made reads back, and a new file is empty. */
  ghost predicate Stored(s: Ns, op: NsOp, s': Ns, v': Vol) {
    && (op.SymlinkOp? && s' != s ==> exists n: nat :: NewFile(s, op.d, op.x, n, Symlink, s') && LinkTarget(v', n) == op.target)
    && (op.MkFileOp? && s' != s ==> exists n: nat :: NewFile(s, op.d, op.x, n, Regular, s') && NoBytes(v', n))
  }

  ghost predicate NoBytes(v: Vol, n: nat) {
    n in v.itab && v.itab[n].size == 0 && Contents(v, n) == []
  }

  /** One operation. */
  method Step(fs: Volume, live: set<nat>, high: set<(nat, Name)>, op: NsOp) returns (live': set<nat>, high': set<(nat, Name)>, stop: Stop)
    requires Sane(fs) && live == TreeIn(fs).kinds.Keys && HighAre(TreeIn(fs), high)
    modifies fs`disk, fs`itab, fs`trees, fs.blocks, fs.inodes
    ensures Valid(fs) && (stop == Going ==> Sane(fs) && live' == TreeIn(fs).kinds.Keys && HighAre(TreeIn(fs), high'))
    ensures stop != Clash ==> NsValid(fs) && LinksExact(TreeIn(fs))
    ensures old(Permitted(fs.itab, live, op)) ==> After(old(TreeIn(fs)), op, TreeIn(fs), View(fs), old(Scarce(fs)), stop)
    ensures !old(Permitted(fs.itab, live, op)) ==> stop == Going && StateOf(fs) == old(StateOf(fs))
    ensures FilesKept(old(View(fs)), View(fs))
  {
    hide Sane, After, NsValid, Scarce, LinksExact, HighAre, FilesKept;
    SaneExact(fs);
    KeptSame(View(fs));
    live', high', stop := live, high, Going;
    if !Permitted(fs.itab, live, op) { return; }
    if op.RenameOp? {
      high', stop := StepRename(fs, live, high, op);
    } else if Makes(op) {
      live', high', stop := StepMake(fs, live, high, op);
    } else {
      live' := StepDrop(fs, live, high, op);
    }
    if stop == Going { SaneExact(fs); }
  }

  /** The operations that add a name to a directory, other than rename. */
  predicate Makes(op: NsOp) {
    op.MkDirOp? || op.MkFileOp? || op.LinkOp? || op.SymlinkOp?
  }

  /** A name has been made: n is the inode it names. */
  ghost predicate Made(s: Ns, op: NsOp, n: nat, s': Ns, v': Vol) {
    match op
    case MkDirOp(d, x) => NewDir(s, d, x, n, s')
    case MkFileOp(d, x) => NewFile(s, d, x, n, Regular, s') && NoBytes(v', n)
    case LinkOp(d, x, m) => m == n && Linked1(s, d, x, n, s')
    case SymlinkOp(d, x, target) => NewFile(s, d, x, n, Symlink, s') && LinkTarget(v', n) == target && 0 < |target| < 4096
    case _ => false
  }

  /** Why a name may not have been made. */
  ghost predicate Refused(s: Ns, op: NsOp, scarce: bool) {
    || scarce || !Offered(s, op.d, op.x)
    || (op.LinkOp? && (op.n !in s.kinds || op.n in s.dirs)) || (op.SymlinkOp? && (|op.target| == 0 || |op.target| >= 4096))
  }

  lemma MadeAfter(s: Ns, op: NsOp, n: nat, s': Ns, v': Vol, scarce: bool)
    requires NsOK(s) && Makes(op) && Made(s, op, n, s', v')
    ensures After(s, op, s', v', scarce, Going) && HighGrown(s, s', op.d, op.x) && s'.kinds.Keys == s.kinds.Keys + {n}
  {
    hide Ascii, HighGrown, NsOK, LinkTarget, AllDirs;
    match op {
      case MkDirOp(d, x) => HighNewDir(s, d, x, n, s');
      case MkFileOp(d, x) => HighNewFile(s, d, x, n, Regular, s');
      case LinkOp(d, x, m) =>
        HighLinked(s, d, x, n, s');
        assert s.kinds.Keys + {n} == s.kinds.Keys;
      case SymlinkOp(d, x, target) => HighNewFile(s, d, x, n, Symlink, s');
    }
  }

  lemma RefusedAfter(s: Ns, op: NsOp, v': Vol, scarce: bool)
    requires Makes(op) && Refused(s, op, scarce)
    ensures After(s, op, s, v', scarce, Going)
  {
    hide AllDirs, Collides;
  }

  method StepMake(fs: Volume, live: set<nat>, high: set<(nat, Name)>, op: NsOp) returns (live': set<nat>, high': set<(nat, Name)>, stop: Stop)
    requires Sane(fs) && live == TreeIn(fs).kinds.Keys && HighAre(TreeIn(fs), high) && Permitted(fs.itab, live, op) && Makes(op)
    modifies fs`disk, fs`itab, fs`trees, fs.blocks, fs.inodes
    ensures Valid(fs) && (stop == Going ==> Sane(fs) && live' == TreeIn(fs).kinds.Keys && HighAre(TreeIn(fs), high'))
    ensures stop == PartWay ==> NsValid(fs) && LinksExact(TreeIn(fs))
    ensures After(old(TreeIn(fs)), op, TreeIn(fs), View(fs), old(Scarce(fs)), stop)
    ensures FilesKept(old(View(fs)), View(fs))
  {
    hide FilesKept, Contents;
    hide Valid, AllDirs, Abs, NsOK, LinksExact, HighAre, Ascii, Doubled, NewDir, NewFile, Linked1, Offered, Next, Stored, LinkTarget, Collides;
    ghost var s, few := TreeIn(fs), Scarce(fs);
    OnListIs(s, high, op);
    live', high', stop := live, high, Going;
    ParentFine(fs, live, op.d);
    var clash, done, n := OnList(high, op), false, 1;
    match op {
      case MkDirOp(d, x) =>
        var broken;
        n, broken := MakeDir(fs, d, x);
        if broken { return live, high, PartWay; }
        done := n != 1;
      case MkFileOp(d, x) =>
        n := MakeFile(fs, d, x);
        done := n != 1;
      case LinkOp(d, x, m) =>
        LiveInTable(fs, m);
        done := HardLink(fs, d, x, m);
        n := m;
      case SymlinkOp(d, x, target) =>
        done, n := MakeSymlink(fs, d, x, target);
    }
    if !done {
      RefusedAfter(s, op, View(fs), few);
    } else if clash {
      DoubledBreaks(View(fs), op.d, op.x);
      stop := Clash;
    } else {
      MadeAfter(s, op, n, TreeIn(fs), View(fs), few);
      live', high' := live + {n}, HighMore(high, op.d, op.x);
      HighKept(s, TreeIn(fs), high, op.d, op.x);
    }
  }

  lemma RenameAfter(s: Ns, op: NsOp, s': Ns, v': Vol, scarce: bool)
    requires NsOK(s) && op.RenameOp?
    requires || (MayRename(s, op.d, op.x, op.q, op.y) && Renamed(s, op.d, op.x, op.q, op.y, s'))
             || (s' == s && (scarce || !MayMove(s, op.d, op.x, op.q, op.y) || !Offered(s, op.q, op.y)))
    ensures After(s, op, s', v', scarce, Going)
    ensures Renamed(s, op.d, op.x, op.q, op.y, s') && MayMove(s, op.d, op.x, op.q, op.y) ==> HighGrown(s, s', op.q, op.y) && s'.kinds == s.kinds
  {
    hide Ascii, HighGrown, NsOK, AllDirs, ClimbsClear;
    if Renamed(s, op.d, op.x, op.q, op.y, s') && MayMove(s, op.d, op.x, op.q, op.y) { HighRenamed(s, op.d, op.x, op.q, op.y, s'); }
  }

  method StepRename(fs: Volume, live: set<nat>, high: set<(nat, Name)>, op: NsOp) returns (high': set<(nat, Name)>, stop: Stop)
    requires Sane(fs) && live == TreeIn(fs).kinds.Keys && HighAre(TreeIn(fs), high) && Permitted(fs.itab, live, op) && op.RenameOp?
    modifies fs`disk, fs`itab, fs`trees, fs.blocks
    ensures Valid(fs) && (stop == Going ==> Sane(fs) && live == TreeIn(fs).kinds.Keys && HighAre(TreeIn(fs), high'))
    ensures stop != PartWay && After(old(TreeIn(fs)), op, TreeIn(fs), View(fs), old(Scarce(fs)), stop)
    ensures FilesKept(old(View(fs)), View(fs))
  {
    hide FilesKept;
    hide Valid, AllDirs, Abs, NsOK, LinksExact, HighAre, Ascii, Doubled, MayMove, Renamed, Offered, Next, Stored, Collides, HighGrown;
    ghost var s, few := TreeIn(fs), Scarce(fs);
    OnListIs(s, high, op);
    high', stop := high, Going;
    ParentFine(fs, live, op.d);
    ParentFine(fs, live, op.q);
    var ok := Rename(fs, op.d, op.x, op.q, op.y);
    if ok && OnList(high, op) {
      DoubledBreaks(View(fs), op.q, op.y);
      stop := Clash;
    } else {
      RenameAfter(s, op, TreeIn(fs), View(fs), few);
      if ok {
        HighKept(s, TreeIn(fs), high, op.q, op.y);
        high' := HighMore(high, op.q, op.y);
      }
    }
  }

  method StepDrop(fs: Volume, live: set<nat>, high: set<(nat, Name)>, op: NsOp) returns (live': set<nat>)
    requires Sane(fs) && live == TreeIn(fs).kinds.Keys && HighAre(TreeIn(fs), high)
    requires Permitted(fs.itab, live, op) && !Makes(op) && !op.RenameOp?
    modifies fs`disk, fs`itab, fs`trees, fs.blocks, fs.inodes
    ensures Sane(fs) && live' == TreeIn(fs).kinds.Keys && HighAre(TreeIn(fs), high)
    ensures After(old(TreeIn(fs)), op, TreeIn(fs), View(fs), old(Scarce(fs)), Going)
    ensures FilesKept(old(View(fs)), View(fs))
  {
    hide FilesKept;
    hide Valid, AllDirs, Abs, Treelike, LinksExact, EmptyDir, RmDir, Ent, HighAre, Ascii;
    ghost var s := TreeIn(fs);
    TreeFacts(s);
    ParentFine(fs, live, op.d);
    match op {
      case UnlinkOp(d, x) =>
        var ok, gone := UnlinkFile(fs, d, x);
        live' := live - gone;
        if ok { HighUnlinked(s, d, x, TreeIn(fs)); }
      case RmDirOp(d, x) =>
        var ok, gone := UnlinkDir(fs, d, x);
        live' := live - gone;
        if ok {
          ghost var n :| EmptyDir(s, d, x, n);
          HighRemoved(s, d, x, n, TreeIn(fs));
        }
    }
    TreeFacts(TreeIn(fs));
    HighKept(s, TreeIn(fs), high, op.d, op.x);
  }

  /** The tree that a volume in state s stores. */
  ghost function Tree1(s: State): Ns {
    Abs(s.vol)
  }

  /** Few free blocks, or no free inode, in state s. */
  ghost predicate ScarceIn(s: State) {
    RoomIn(s).blocks < 13 || RoomIn(s).inodes == 0
  }

  /**
   * One operation: if it is permitted and applies, and there is room in s, it has its effect; otherwise the tree stays as
   * it is.  Every file and link that stays keeps its bytes.
   */
  ghost predicate Goes(s: State, op: NsOp, s': State) {
    FilesKept(s.vol, s'.vol) && if Permitted(s.vol.itab, Tree1(s).kinds.Keys, op) then After(Tree1(s), op, Tree1(s'), s'.vol, ScarceIn(s), Going) else s' == s
  }

  /** A sound volume that stores a tree, with no name twice in any directory. */
  ghost predicate Sound1(s: State) {
    VolOK(s.vol) && AllDirs(s.vol) && NsOK(Tree1(s))
  }

  /** The states that a volume goes through, as far as the run got: sound in each, and each operation done as it should. */
  ghost predicate IsRun(ops: seq<NsOp>, done: nat, states: seq<State>) {
    && done <= |ops| && |states| == done + 1
    && (forall i :: 0 <= i <= done ==> Sound1(states[i]))
    && (forall i :: 0 <= i < done ==> Goes(states[i], ops[i], states[i + 1]))
  }

  /**
   * Every run: each state on the way is a tree with unique names and exact link counts.  Two things end it: a make_dir
   * that runs out of space part-way, and a name with a byte of 0x80 or more that is given a second time, after which
   * names are not unique.
   */
  method Run(fs: Volume, live: set<nat>, high: set<(nat, Name)>, ops: seq<NsOp>) returns (live': set<nat>, done: nat, ghost states: seq<State>)
    requires Sane(fs) && live == TreeIn(fs).kinds.Keys && HighAre(TreeIn(fs), high)
    modifies fs`disk, fs`itab, fs`trees, fs.blocks, fs.inodes
    ensures Valid(fs) && IsRun(ops, done, states) && states[0] == old(StateOf(fs))
    ensures done == |ops| ==> Sane(fs) && StateOf(fs) == states[done]
    ensures done < |ops| ==> || (ops[done].MkDirOp? && ScarceIn(states[done]) && NsValid(fs) && LinksExact(TreeIn(fs)))
                             || (Clashes(Tree1(states[done]), ops[done]) && !AllDirs(View(fs)))
    ensures done < |ops| && GivesAscii(ops[done]) ==> ops[done].MkDirOp? && ScarceIn(states[done])
    ensures FilesKept(states[done].vol, View(fs))
  {
    hide FilesKept;
    hide Valid, AllDirs, Abs, NsOK, LinksExact, VolOK, RoomIn, Next, Stored, HighAre, Clashes, Sound1, Permitted, GivesAscii;
    live', done, states := live, 0, [StateOf(fs)];
    var high' := high;
    SaneState(fs);
    KeptSame(View(fs));
    while done < |ops|
      invariant Sane(fs) && live' == TreeIn(fs).kinds.Keys && HighAre(TreeIn(fs), high') && IsRun(ops, done, states)
      invariant states[0] == old(StateOf(fs)) && StateOf(fs) == states[done] && FilesKept(View(fs), View(fs))
    {
      RoomIs(fs);
      var stop;
      live', high', stop := Step(fs, live', high', ops[done]);
      if stop != Going {
        if GivesAscii(ops[done]) { AsciiNeverClashes(Tree1(states[done]), ops[done]); }
        return;
      }
      SaneState(fs);
      KeptSame(View(fs));
      states := states + [StateOf(fs)];
      done := done + 1;
    }
  }

  /** Over a whole run, a file or link that is live all the time keeps its bytes, its size and its target. */
  lemma {:induction false} FilesStay(ops: seq<NsOp>, done: nat, states: seq<State>, i: nat, j: nat, n: nat)
    requires IsRun(ops, done, states) && i <= j <= done && forall k :: i <= k <= j ==> n in states[k].vol.trees
    requires n in states[i].vol.itab && states[i].vol.itab[n].kind != Directory
    ensures Intact(states[i].vol, states[j].vol, n) && states[i].vol.itab[n].size <= MAX_SIZE
    ensures states[j].vol.itab[n].size == states[i].vol.itab[n].size && Contents(states[j].vol, n) == Contents(states[i].vol, n)
    ensures LinkTarget(states[j].vol, n) == LinkTarget(states[i].vol, n)
    decreases j
  {
    hide Contents, LinkTarget, FileKept, After, Permitted, NsOK, AllDirs, VolOK;
    assert Sound1(states[i]);
    SizeFits(states[i].vol, n);
    if i < j {
      FilesStay(ops, done, states, i, j - 1, n);
      assert Goes(states[j - 1], ops[j - 1], states[j]);
      assert Intact(states[j - 1].vol, states[j].vol, n);
      IntactTrans(states[i].vol, states[j - 1].vol, states[j].vol, n);
    } else {
      IntactSame(states[i].vol, n);
    }
    IntactBytes(states[i].vol, states[j].vol, n);
    IntactTarget(states[i].vol, states[j].vol, n);
  }

  lemma SizeFits(v: Vol, n: nat)
    requires VolOK(v) && n in v.trees && n in v.itab
    ensures v.itab[n].size <= MAX_SIZE
  {
    assert FileOK(v, v.itab[n], v.trees[n]);
  }

  lemma IntactSame(v: Vol, n: nat)
    requires n in v.trees && n in v.itab
    ensures Intact(v, v, n)
  {
  }

  /** The name that the operation gives has no byte of 0x80 or more. */
  predicate GivesAscii(op: NsOp) {
    if op.RenameOp? then Ascii(op.y) else Ascii(op.x)
  }

  lemma AsciiNeverClashes(s: Ns, op: NsOp)
    requires GivesAscii(op)
    ensures !Clashes(s, op)
  {
  }

  /** The name of one byte 0xC3, made twice in any directory with room: two entries share it, and name_in finds neither. */
  method MadeTwice(fs: Volume, d: nat) returns (first: nat, second: nat, found: nat)
    requires Sane(fs) && d in TreeIn(fs).dirs && HIGH !in TreeIn(fs).dirs[d] && d in fs.itab && fs.itab[d].size + 8192 <= MAX_SIZE
    requires fs.inodes.superFree >= 2 && fs.blocks.superFree >= 8
    modifies fs`disk, fs`itab, fs`trees, fs.blocks, fs.inodes
    ensures Valid(fs) && first != 1 && second != 1 && Doubled(View(fs), d, HIGH) && !AllDirs(View(fs)) && found == 0
  {
    hide Valid, AllDirs, Abs, NsOK, Twice, IsDir, Entries;
    HighName();
    DirInTable(fs, d);
    first := MakeFile(fs, d, HIGH);
    DirInTable(fs, d);
    second := MakeFile(fs, d, HIGH);
    DoubledBreaks(View(fs), d, HIGH);
    found := NameIn(fs, d, HIGH);
  }

  const HIGH: Name := [0xC3]

  lemma HighName()
    ensures !Ascii(HIGH) && NulFree(HIGH) && GoodName(HIGH)
  {
    assert HIGH[0] == 0xC3;
  }

  lemma SaneState(fs: Volume)
    requires Sane(fs)
    ensures Sound1(StateOf(fs))
  {
    hide VolOK, NsOK, Abs, AllDirs;
  }

  lemma SaneExact(fs: Volume)
    requires Sane(fs)
    ensures NsValid(fs) && LinksExact(TreeIn(fs))
  {
  }
}
