/** Resolution of descriptors through procfs (`FdPathCache::resolve` and
    `resolve_existing` in `ncda/src/bpf.rs`). */
module Resolve {
  import opened Saturating
  import opened Paths
  import opened Numerals
  import opened Render
  import opened Normalize
  import opened Attribution
  import opened Spelling
  import opened Provenance
  import opened Tidying

  /** What the symbolic links of `/proc` point at; a failed read is `None`. */
  datatype Procfs = Procfs(
    descriptor: (u32, int) -> Option<Bytes>,
    cwd: u32 -> Option<Bytes>,
    root: u32 -> Option<Bytes>)

  const AT_FDCWD := -100

  datatype PseudoPath = Ordinary | Ignore | InMemory(path: string)

  const DELETED := Utf8(" (deleted)")

  /** `trim_deleted_suffix`. */
  function TrimDeleted(path: Bytes): Bytes {
    if |DELETED| <= |path| && path[|path| - |DELETED|..] == DELETED then path[..|path| - |DELETED|] else path
  }

  function Replaced(text: string, from: char, to: char): string {
    if text == "" then "" else [if text[0] == from then to else text[0]] + Replaced(text[1..], from, to)
  }

  function MemoryPath(name: Bytes): string {
    "/[memory]/memfd:" + Replaced(Display(name), '/', '\U{2215}')
  }

  /** `classify_pseudo_path`. */
  function Classify(raw: Bytes): PseudoPath {
    var path := TrimDeleted(raw);
    var target := if [SLASH] <= path then path[1..] else path;
    if Utf8("socket:") <= target || Utf8("pipe:") <= target || Utf8("anon_inode:") <= target then Ignore
    else if Utf8("memfd:") <= target then InMemory(MemoryPath(target[|Utf8("memfd:")|..]))
    else Ordinary
  }

  /** `strip_container_root`. */
  function StripRoot(root: ContainerRoot, path: Bytes): Bytes {
    if root.None? then path
    else if path == root.value then [SLASH]
    else if root.value <= path && |root.value| < |path| && path[|root.value|] == SLASH then path[|root.value|..]
    else path
  }

  /** What `root_cache` remembers: nothing for a process whose root is `/`. */
  function RootOf(proc: Procfs, pid: u32): ContainerRoot {
    var link := proc.root(pid);
    if link == Some([SLASH]) then None else link
  }

  function Target(proc: Procfs, key: FdKey): Option<Bytes> {
    var link := proc.descriptor(key.pid, key.fd);
    if link.None? then None else Some(TrimDeleted(link.value))
  }

  predicate TargetUsesRoot(proc: Procfs, key: FdKey) {
    var target := Target(proc, key);
    target.Some? && Classify(target.value).Ordinary? && [SLASH] <= target.value
  }

  /** `resolve_proc_target`. */
  function ProcTarget(proc: Procfs, key: FdKey, root: ContainerRoot): Option<PathResolution> {
    var target := Target(proc, key);
    if target.None? then None
    else
      match Classify(target.value)
      case Ignore => Some(Ignored)
      case InMemory(path) => Some(Resolved(path))
      case Ordinary =>
        if [SLASH] <= target.value then Some(Resolved(Display(Absolute(StripRoot(root, target.value))))) else None
  }

  function UnresolvedFd(key: FdKey): string {
    "/[unresolved]/pid-" + Decimal(key.pid) + "/fd-" + Decimal(key.fd)
  }

  /** `unresolved_path`. */
  function UnresolvedPath(key: FdKey, raw: Bytes): string {
    var text := Display(Relative(raw));
    if text == "" then UnresolvedFd(key) else UnresolvedFd(key) + "/" + text
  }

  /** `resolve_existing`. */
  function ResolveExisting(proc: Procfs, key: FdKey, root: ContainerRoot): PathResolution {
    var target := ProcTarget(proc, key, root);
    if target.Some? then target.value else Unresolved(UnresolvedFd(key))
  }

  /** The directory that a relative path is relative to. */
  function Base(proc: Procfs, call: OpenCall): Option<Bytes> {
    if call.dirfd == AT_FDCWD then proc.cwd(call.pid) else proc.descriptor(call.pid, call.dirfd)
  }

  function Expected(base: Bytes, call: OpenCall, root: ContainerRoot): string {
    Display(Absolute(StripRoot(root, base + [SLASH] + call.path)))
  }

  predicate OpenUsesRoot(proc: Procfs, call: OpenCall) {
    call.flags == 0 && Classify(call.path).Ordinary?
    && if [SLASH] <= call.path then TargetUsesRoot(proc, FdKey(call.pid, call.fd)) else Base(proc, call).Some?
  }

  /** `resolve`. */
  function ResolveOpen(proc: Procfs, call: OpenCall, root: ContainerRoot): PathResolution {
    var key := FdKey(call.pid, call.fd);
    var target := ProcTarget(proc, key, root);
    if call.flags != 0 then Unresolved(UnresolvedPath(key, call.path))
    else
      match Classify(call.path)
      case Ignore => Ignored
      case InMemory(path) => Resolved(path)
      case Ordinary =>
        if [SLASH] <= call.path then
          if target == Some(Ignored) then Ignored else Resolved(Display(Absolute(call.path)))
        else if Base(proc, call).None? then Unresolved(UnresolvedPath(key, call.path))
        else
          var expected := Expected(Base(proc, call).value, call, root);
          if target == Some(Resolved(expected)) then Resolved(expected)
          else if target == Some(Ignored) then Ignored
          else if target.Some? && target.value.Resolved? && "/[memory]/" <= target.value.path then target.value
          else Unresolved(UnresolvedPath(key, call.path))
  }

  /** The world of a batch, given procfs, container discovery and the excluded prefixes. */
  function WorldOf(proc: Procfs, container: u32 -> Option<string>, comm: u32 -> string, prefixes: seq<string>): World {
    World(pid => RootOf(proc, pid),
          key => TargetUsesRoot(proc, key),
          (key, root) => ResolveExisting(proc, key, root),
          call => OpenUsesRoot(proc, call),
          (call, root) => ResolveOpen(proc, call, root),
          container, comm,
          path => IsExcluded(prefixes, path))
  }

  // --- All resolved paths are canonical spellings ---

  lemma {:induction false} ReplacedPlain(text: string, from: char, to: char)
    requires from != to
    ensures from !in Replaced(text, from, to)
  {
    if text != "" { ReplacedPlain(text[1..], from, to); }
  }

  lemma JoinTwo(a: string, b: string)
    ensures Join([a, b], '/') == a + "/" + b
  {
    assert [a, b][1..] == [b];
  }

  lemma JoinThree(a: string, b: string, c: string)
    ensures Join([a, b, c], '/') == a + "/" + b + "/" + c
  {
    assert [a, b, c][1..] == [b, c];
    JoinTwo(b, c);
  }

  lemma MemoryCanonical(name: Bytes)
    ensures Canonical(MemoryPath(name)) && "/[memory]/" <= MemoryPath(name)
  {
    var text := Replaced(Display(name), '/', '\U{2215}');
    ReplacedPlain(Display(name), '/', '\U{2215}');
    hide *;
    var pieces := ["[memory]", "memfd:" + text];
    CanonicalPieces(pieces) by { PiecesAre(pieces); }
    JoinTwo("[memory]", "memfd:" + text);
    MemoryPathIs(name, text);
  }

  lemma PiecesAre(pieces: seq<string>)
    requires forall i :: 0 <= i < |pieces| ==> pieces[i] != "" && '/' !in pieces[i]
    ensures Pieces(pieces)
  {
  }

  lemma MemoryPathIs(name: Bytes, text: string)
    requires text == Replaced(Display(name), '/', '\U{2215}')
    ensures MemoryPath(name) == "/" + ("[memory]" + "/" + ("memfd:" + text))
    ensures "/[memory]/" <= MemoryPath(name)
  {
    hide Replaced, Display;
  }

  function FdPieces(key: FdKey): seq<string> {
    ["[unresolved]", "pid-" + Decimal(key.pid), "fd-" + Decimal(key.fd)]
  }

  lemma FdJoined(key: FdKey)
    ensures UnresolvedFd(key) == "/" + Join(FdPieces(key), '/') && Pieces(FdPieces(key))
  {
    hide Decimal;
    var pid, fd := "pid-" + Decimal(key.pid), "fd-" + Decimal(key.fd);
    JoinThree("[unresolved]", pid, fd);
    assert UnresolvedFd(key) == "/" + ("[unresolved]" + "/" + pid + "/" + fd);
  }

  lemma RelativeShown(raw: Bytes)
    ensures Display(Relative(raw)) == Join(DisplayAll(NormalComponents(raw)), '/')
    ensures Pieces(DisplayAll(NormalComponents(raw)))
    ensures Display(Relative(raw)) == "" <==> DisplayAll(NormalComponents(raw)) == []
  {
    hide *;
    NormalIsClean(raw);
    CleanShown(NormalComponents(raw));
    RelativeIs(raw);
    DisplayJoin(NormalComponents(raw));
    JoinEmpty(DisplayAll(NormalComponents(raw)));
  }

  lemma RelativeIs(raw: Bytes)
    ensures Relative(raw) == Join(NormalComponents(raw), SLASH)
  {
  }

  lemma JoinEmpty(pieces: seq<string>)
    requires Pieces(pieces)
    ensures Join(pieces, '/') == "" <==> pieces == []
  {
  }

  lemma UnresolvedCanonical(key: FdKey, raw: Bytes)
    ensures Canonical(UnresolvedPath(key, raw)) && Canonical(UnresolvedFd(key))
    ensures Components(UnresolvedPath(key, raw)) == FdPieces(key) + DisplayAll(NormalComponents(raw))
  {
    hide Canonical, Components, FdPieces, UnresolvedFd, Join, Relative, Display, DisplayAll, NormalComponents;
    var front, more := FdPieces(key), DisplayAll(NormalComponents(raw));
    FdJoined(key);
    FdSome(key);
    RelativeShown(raw);
    CanonicalPieces(front);
    CanonicalPieces(front + more);
    if more == [] {
      assert front + more == front;
    } else {
      JoinConcat(front, more);
      assert "/" + (Join(front, '/') + "/" + Join(more, '/')) == "/" + Join(front, '/') + "/" + Join(more, '/');
    }
  }

  lemma FdSome(key: FdKey)
    ensures |FdPieces(key)| == 3
  {
  }

  /** Unresolved activity of different descriptors, or of different paths, is kept apart. */
  lemma UnresolvedApart(j: FdKey, a: Bytes, k: FdKey, b: Bytes)
    ensures Place(UnresolvedPath(j, a)) == Place(UnresolvedPath(k, b)) <==> j == k && Relative(a) == Relative(b)
  {
    UnresolvedCanonical(j, a);
    UnresolvedCanonical(k, b);
    if Place(UnresolvedPath(j, a)) == Place(UnresolvedPath(k, b)) {
      hide UnresolvedPath, Decimal, Display, DisplayAll, NormalComponents, Components, Canonical;
      PathOfInjective(Components(UnresolvedPath(j, a)), Components(UnresolvedPath(k, b)));
      var x, y := FdPieces(j) + DisplayAll(NormalComponents(a)), FdPieces(k) + DisplayAll(NormalComponents(b));
      assert x[..3] == FdPieces(j) && y[..3] == FdPieces(k);
      SamePieces(j, k);
      assert x[3..] == DisplayAll(NormalComponents(a)) && y[3..] == DisplayAll(NormalComponents(b));
      RelativeShown(a);
      RelativeShown(b);
      DisplayInjective(Relative(a), Relative(b));
    }
  }

  lemma SamePieces(j: FdKey, k: FdKey)
    requires FdPieces(j) == FdPieces(k)
    ensures j == k
  {
    hide Decimal;
    assert FdPieces(j)[1] == FdPieces(k)[1] && FdPieces(j)[2] == FdPieces(k)[2];
    assert ("pid-" + Decimal(j.pid))[4..] == Decimal(j.pid) && ("pid-" + Decimal(k.pid))[4..] == Decimal(k.pid);
    assert ("fd-" + Decimal(j.fd))[3..] == Decimal(j.fd) && ("fd-" + Decimal(k.fd))[3..] == Decimal(k.fd);
    DecimalInjective(j.pid, k.pid);
    DecimalInjective(j.fd, k.fd);
  }

  lemma ProcTargetTidy(proc: Procfs, key: FdKey, root: ContainerRoot)
    ensures ProcTarget(proc, key, root).Some? ==> Tidy(ProcTarget(proc, key, root).value)
  {
    var target := Target(proc, key);
    hide Canonical, Target, Absolute, Display, MemoryPath, TrimDeleted, Utf8;
    if target.Some? {
      ShownCanonical(StripRoot(root, target.value));
      ClassifiedTidy(target.value);
    }
  }

  lemma ClassifiedTidy(path: Bytes)
    ensures Classify(path).InMemory? ==> Canonical(Classify(path).path)
  {
    hide Canonical, MemoryPath, Utf8, TrimDeleted;
    forall name { MemoryCanonical(name); }
  }

  /** Whatever procfs says, existing descriptors resolve to canonical spellings. */
  lemma ExistingTidy(proc: Procfs, key: FdKey, root: ContainerRoot)
    ensures Tidy(ResolveExisting(proc, key, root))
  {
    hide Canonical, ProcTarget, UnresolvedFd, UnresolvedPath, NormalComponents, DisplayAll, FdPieces, Components;
    ProcTargetTidy(proc, key, root);
    UnresolvedCanonical(key, []);
  }

  /** And so do opened files. */
  lemma OpenTidy(proc: Procfs, call: OpenCall, root: ContainerRoot)
    ensures Tidy(ResolveOpen(proc, call, root))
  {
    hide *;
    var key := FdKey(call.pid, call.fd);
    ProcTargetTidy(proc, key, root);
    ClassifiedTidy(call.path);
    UnresolvedCanonical(key, call.path);
    ShownCanonical(call.path);
    OpenCases(proc, call, root);
    TidyIs(ResolveOpen(proc, call, root));
    if ProcTarget(proc, key, root).Some? { TidyIs(ProcTarget(proc, key, root).value); }
  }

  /** Where the path of an opened file comes from. */
  lemma OpenCases(proc: Procfs, call: OpenCall, root: ContainerRoot)
    ensures var r, key := ResolveOpen(proc, call, root), FdKey(call.pid, call.fd);
            || r == Ignored
            || r == Unresolved(UnresolvedPath(key, call.path))
            || (Classify(call.path).InMemory? && r == Resolved(Classify(call.path).path))
            || r == Resolved(Display(Absolute(call.path)))
            || ProcTarget(proc, key, root) == Some(r)
  {
    hide Classify, ProcTarget, Display, Absolute, UnresolvedPath, Expected;
  }

  /** A relative path is believed only if procfs agrees about the descriptor. */
  lemma RelativeOpensAgree(proc: Procfs, call: OpenCall, root: ContainerRoot)
    requires !([SLASH] <= call.path) && Classify(call.path).Ordinary?
    ensures ResolveOpen(proc, call, root).Resolved?
        ==> ResolveOpen(proc, call, root) == ResolveExisting(proc, FdKey(call.pid, call.fd), root)
    ensures ResolveOpen(proc, call, root).Resolved? ==> call.flags == 0
  {
    hide Classify, ProcTarget, Expected, UnresolvedPath, UnresolvedFd;
  }

  /** An open that reports an incomplete path is unresolved, whatever procfs says. */
  lemma IncompletePathsUnresolved(proc: Procfs, call: OpenCall, root: ContainerRoot)
    requires call.flags != 0
    ensures ResolveOpen(proc, call, root) == Unresolved(UnresolvedPath(FdKey(call.pid, call.fd), call.path))
  {
  }

  /** The root directory is consulted only where the result may depend on it. */
  lemma RootOnlyWhenUsed(proc: Procfs, key: FdKey, call: OpenCall, r: ContainerRoot, s: ContainerRoot)
    ensures !TargetUsesRoot(proc, key) ==> ResolveExisting(proc, key, r) == ResolveExisting(proc, key, s)
    ensures !OpenUsesRoot(proc, call) ==> ResolveOpen(proc, call, r) == ResolveOpen(proc, call, s)
  {
    hide Classify, Display, Absolute, Expected, UnresolvedPath, UnresolvedFd, StripRoot, Target, Base;
  }

  /** So every batch meets a tidy world, whatever procfs says. */
  lemma WorldTidy(proc: Procfs, container: u32 -> Option<string>, comm: u32 -> string, prefixes: seq<string>)
    ensures TidyWorld(WorldOf(proc, container, comm, prefixes))
  {
    hide ResolveExisting, ResolveOpen, Finds;
    var w := WorldOf(proc, container, comm, prefixes);
    forall key, root
      ensures Finds(Canonical, w.existing(key, root))
    {
      ExistingTidy(proc, key, root);
    }
    forall call, root
      ensures Finds(Canonical, w.open(call, root))
    {
      OpenTidy(proc, call, root);
    }
  }
}
