/** What the links of procfs come to, read off their bytes: which descriptors are no files,
    which are files in memory, and what a process root and a working directory do to paths. */
module Links {
  import opened Saturating
  import opened Numerals
  import opened Render
  import opened Normalize
  import opened Attribution
  import opened Resolve

  /** ASCII text as bytes. */
  function Ascii(text: string): (b: Bytes)
    ensures |b| == |text|
  {
    if text == "" then [] else [text[0] as int % 0x80] + Ascii(text[1..])
  }

  lemma {:induction false} AsciiIsUtf8(text: string)
    requires forall i :: 0 <= i < |text| ==> text[i] as int < 0x80
    ensures Utf8(text) == Ascii(text)
  {
    if text != "" { AsciiIsUtf8(text[1..]); }
  }

  lemma {:induction false} AsciiSpaces(text: string)
    requires forall i :: 0 <= i < |text| ==> text[i] as int < 0x80 && text[i] != ' '
    ensures 0x20 !in Ascii(text) && 0x20 !in [0x2F] + Ascii(text)
  {
    if text != "" { AsciiSpaces(text[1..]); }
  }

  /** The suffix that procfs adds to the link of an unlinked file. */
  const UNLINKED: Bytes := Ascii(" (deleted)")

  ghost predicate Unlinked(link: Bytes) { |UNLINKED| <= |link| && link[|link| - |UNLINKED|..] == UNLINKED }

  /** The link names something of this kind, with or without a slash in front. */
  ghost predicate Names(link: Bytes, kind: string) { Ascii(kind) <= link || [0x2F] + Ascii(kind) <= link }

  ghost predicate NoFile(link: Bytes) { Names(link, "socket:") || Names(link, "pipe:") || Names(link, "anon_inode:") }

  // --- Suffixes and kinds ---

  lemma SuffixIs()
    ensures DELETED == UNLINKED && |UNLINKED| == 10 && UNLINKED[0] == 0x20
  {
    AsciiIsUtf8(" (deleted)");
  }

  lemma TrimmedLink(link: Bytes)
    ensures Unlinked(link) ==> link == TrimDeleted(link) + UNLINKED
    ensures !Unlinked(link) ==> TrimDeleted(link) == link
  {
    SuffixIs();
    hide Ascii, Utf8;
  }

  /** Trimming the suffix does not touch a beginning without spaces. */
  lemma TrimmedStart(link: Bytes, start: Bytes)
    requires 0x20 !in start
    ensures start <= TrimDeleted(link) <==> start <= link
  {
    var front := TrimDeleted(link);
    TrimmedLink(link);
    assert start <= link && |front| < |start| ==> link[|front|] == start[|front|];
    SuffixIs();
    hide Ascii, Utf8, TrimDeleted;
    if Unlinked(link) { assert link[|front|] == UNLINKED[0]; }
  }

  /** ASCII letters and the like: no space, and no slash in front. */
  ghost predicate Word(kind: string) {
    kind != "" && kind[0] != '/' && forall i :: 0 <= i < |kind| ==> kind[i] as int < 0x80 && kind[i] != ' '
  }

  lemma KindsAreWords()
    ensures Word("socket:") && Word("pipe:") && Word("anon_inode:") && Word("memfd:")
  {
  }

  lemma TrimmedNames(link: Bytes, kind: string)
    requires Word(kind)
    ensures Names(TrimDeleted(link), kind) <==> Names(link, kind)
  {
    hide TrimDeleted, Ascii;
    AsciiSpaces(kind);
    TrimmedStart(link, Ascii(kind));
    TrimmedStart(link, [0x2F] + Ascii(kind));
  }

  /** Without its slash, if it has one. */
  function Slashless(link: Bytes): Bytes { if [SLASH] <= link then link[1..] else link }

  lemma SlashOrNot(path: Bytes, b: Bytes)
    requires b != [] && b[0] != SLASH
    ensures b <= Slashless(path) <==> b <= path || [0x2F] + b <= path
  {
    if [SLASH] <= path {
      assert path == [0x2F] + path[1..];
      assert [0x2F] + b <= path <==> b <= path[1..];
    }
  }

  lemma AfterSlash(link: Bytes, kind: string)
    requires Word(kind)
    ensures Utf8(kind) <= Slashless(TrimDeleted(link)) <==> Names(link, kind)
  {
    TrimmedNames(link, kind);
    AsciiIsUtf8(kind);
    WordStart(kind);
    SlashOrNot(TrimDeleted(link), Ascii(kind));
    hide Utf8, Ascii, TrimDeleted, Slashless;
  }

  lemma WordStart(kind: string)
    requires Word(kind)
    ensures Ascii(kind) != [] && Ascii(kind)[0] != SLASH
  {
  }

  lemma ClassifyIs(link: Bytes)
    ensures var target := Slashless(TrimDeleted(link));
            Classify(link) == if Utf8("socket:") <= target || Utf8("pipe:") <= target || Utf8("anon_inode:") <= target then Ignore
                              else if Utf8("memfd:") <= target then InMemory(MemoryPath(target[|Utf8("memfd:")|..]))
                              else Ordinary
  {
    hide Utf8, TrimDeleted, MemoryPath;
  }

  /** Links are classified by how they begin, deleted or not. */
  lemma ClassifiedByStart(link: Bytes)
    ensures Classify(link) == Ignore <==> NoFile(link)
    ensures Classify(link).InMemory? <==> !NoFile(link) && Names(link, "memfd:")
  {
    hide *;
    ClassifyIs(link);
    KindsAreWords();
    NoFileIs(link);
    AfterSlash(link, "socket:");
    AfterSlash(link, "pipe:");
    AfterSlash(link, "anon_inode:");
    AfterSlash(link, "memfd:");
  }

  lemma NoFileIs(link: Bytes)
    ensures NoFile(link) <==> Names(link, "socket:") || Names(link, "pipe:") || Names(link, "anon_inode:")
  {
    hide Names;
  }

  // --- Existing descriptors ---

  /** A descriptor is ignored exactly when its link says that it is a socket, a pipe or an
      anonymous inode. */
  lemma IgnoredIff(proc: Procfs, key: FdKey, root: ContainerRoot)
    ensures var link := proc.descriptor(key.pid, key.fd);
            ResolveExisting(proc, key, root) == Ignored <==> link.Some? && NoFile(link.value)
  {
    hide *;
    var link := proc.descriptor(key.pid, key.fd);
    IgnoredByTarget(proc, key, root);
    if link.Some? {
      ClassifiedByStart(TrimDeleted(link.value));
      TrimmedNoFile(link.value);
    }
  }

  lemma IgnoredByTarget(proc: Procfs, key: FdKey, root: ContainerRoot)
    ensures var link := proc.descriptor(key.pid, key.fd);
            ResolveExisting(proc, key, root) == Ignored <==> link.Some? && Classify(TrimDeleted(link.value)) == Ignore
  {
    hide Classify, TrimDeleted, Display, Absolute, StripRoot, UnresolvedFd;
  }

  lemma TrimmedNoFile(link: Bytes)
    ensures NoFile(TrimDeleted(link)) <==> NoFile(link)
    ensures Names(TrimDeleted(link), "memfd:") <==> Names(link, "memfd:")
  {
    hide *;
    KindsAreWords();
    NoFileIs(link);
    NoFileIs(TrimDeleted(link));
    TrimmedNames(link, "socket:");
    TrimmedNames(link, "pipe:");
    TrimmedNames(link, "anon_inode:");
    TrimmedNames(link, "memfd:");
  }

  ghost predicate OfFile(link: Bytes) { !NoFile(link) && !Names(link, "memfd:") }

  lemma TargetOf(proc: Procfs, key: FdKey, path: Bytes)
    requires var link := proc.descriptor(key.pid, key.fd);
             (link == Some(path) && !Unlinked(path)) || link == Some(path + UNLINKED)
    ensures Target(proc, key) == Some(path)
  {
    var link := proc.descriptor(key.pid, key.fd).value;
    TrimmedLink(link);
    if link == path + UNLINKED { assert Unlinked(link) && link[..|path|] == path; }
    hide TrimDeleted, Unlinked;
  }

  /** A process root is taken off exactly the paths below it: `rest` is what follows it. */
  lemma StripsRoot(root: Bytes, rest: Bytes)
    ensures StripRoot(Some(root), root + [0x2F] + rest) == [0x2F] + rest
    ensures StripRoot(Some(root), root) == [0x2F]
    ensures rest != [] && rest[0] != 0x2F ==> StripRoot(Some(root), root + rest) == root + rest
    ensures !(root <= rest) ==> StripRoot(Some(root), rest) == rest
    ensures StripRoot(None, rest) == rest
  {
    assert (root + [0x2F] + rest)[|root|..] == [0x2F] + rest;
  }

  /** A file is found under its path as it is seen inside the process root: a path below the
      root loses exactly the root, and any other path, also of a sibling that shares the
      letters of the root, stays as it is. A file that was unlinked keeps its path. */
  lemma FileResolves(proc: Procfs, key: FdKey, root: ContainerRoot, path: Bytes, rest: Bytes)
    requires var link := proc.descriptor(key.pid, key.fd);
             (link == Some(path) && !Unlinked(path)) || link == Some(path + UNLINKED)
    requires OfFile(path) && [0x2F] <= path
    ensures var found := ResolveExisting(proc, key, root);
            && (root == None ==> found == Resolved(Display(Absolute(path))))
            && (root == Some(path) ==> found == Resolved(Display(Absolute([0x2F]))))
            && (root.Some? && path == root.value + [0x2F] + rest ==> found == Resolved(Display(Absolute([0x2F] + rest))))
            && (root.Some? && path == root.value + rest && rest != [] && rest[0] != 0x2F ==>
                  found == Resolved(Display(Absolute(path))))
            && (root.Some? && !(root.value <= path) ==> found == Resolved(Display(Absolute(path))))
  {
    hide *;
    FileIs(proc, key, root, path);
    StripsRoot([], path);
    if root.Some? {
      StripsRoot(root.value, rest);
      StripsRoot(root.value, path);
    }
  }

  lemma FileIs(proc: Procfs, key: FdKey, root: ContainerRoot, path: Bytes)
    requires var link := proc.descriptor(key.pid, key.fd);
             (link == Some(path) && !Unlinked(path)) || link == Some(path + UNLINKED)
    requires OfFile(path) && [0x2F] <= path
    ensures ResolveExisting(proc, key, root) == Resolved(Display(Absolute(StripRoot(root, path))))
  {
    TargetOf(proc, key, path);
    ClassifiedByStart(path);
    OfFileIs(path);
    hide *;
    FileTarget(proc, key, root, path);
  }

  lemma OfFileIs(path: Bytes)
    ensures OfFile(path) <==> !NoFile(path) && !Names(path, "memfd:")
  {
    hide NoFile, Names;
  }

  lemma FileTarget(proc: Procfs, key: FdKey, root: ContainerRoot, path: Bytes)
    requires Target(proc, key) == Some(path) && Classify(path).Ordinary? && [0x2F] <= path
    ensures ResolveExisting(proc, key, root) == Resolved(Display(Absolute(StripRoot(root, path))))
  {
    hide Classify, Display, Absolute, Target, StripRoot;
  }

  /** Two files of a process resolve alike exactly when their links lead to the same place
      once the suffix, if there is one, and the process root are taken off. */
  lemma LinksAlikeIff(proc: Procfs, j: FdKey, k: FdKey, root: ContainerRoot, a: Bytes, b: Bytes)
    requires var link := proc.descriptor(j.pid, j.fd); (link == Some(a) && !Unlinked(a)) || link == Some(a + UNLINKED)
    requires var link := proc.descriptor(k.pid, k.fd); (link == Some(b) && !Unlinked(b)) || link == Some(b + UNLINKED)
    requires OfFile(a) && [0x2F] <= a && OfFile(b) && [0x2F] <= b
    ensures ResolveExisting(proc, j, root) == ResolveExisting(proc, k, root)
       <==> Relative(StripRoot(root, a)) == Relative(StripRoot(root, b))
  {
    hide *;
    FileIs(proc, j, root, a);
    FileIs(proc, k, root, b);
    AbsoluteAlike(StripRoot(root, a), StripRoot(root, b));
    if ResolveExisting(proc, j, root) == ResolveExisting(proc, k, root) {
      DisplayInjective(Absolute(StripRoot(root, a)), Absolute(StripRoot(root, b)));
    }
  }

  lemma AbsoluteAlike(a: Bytes, b: Bytes)
    ensures Absolute(a) == Absolute(b) <==> Relative(a) == Relative(b)
  {
    hide Relative;
    assert Absolute(a)[1..] == Relative(a) && Absolute(b)[1..] == Relative(b);
  }

  /** So a file whose own name ends in the suffix is taken for the file without it. */
  lemma SuffixIsLost(proc: Procfs, j: FdKey, k: FdKey, root: ContainerRoot, path: Bytes)
    requires proc.descriptor(j.pid, j.fd) == Some(path) && proc.descriptor(k.pid, k.fd) == Some(path + UNLINKED)
    requires OfFile(path) && [0x2F] <= path && !Unlinked(path)
    ensures ResolveExisting(proc, j, root) == ResolveExisting(proc, k, root)
  {
    hide *;
    LinksAlikeIff(proc, j, k, root, path, path);
  }

  /** A root of `/` is no root to speak of. */
  lemma RootKnown(proc: Procfs, container: u32 -> Option<string>, comm: u32 -> string, prefixes: seq<string>, pid: u32)
    ensures WorldOf(proc, container, comm, prefixes).root(pid)
         == if proc.root(pid) == Some([0x2F]) then None else proc.root(pid)
  {
  }

  /** A descriptor whose link cannot be read, or is no path, stays unresolved under its own
      number. */
  lemma NoPathUnresolved(proc: Procfs, key: FdKey, root: ContainerRoot)
    requires var link := proc.descriptor(key.pid, key.fd);
             link.Some? ==> OfFile(link.value) && !([0x2F] <= link.value)
    ensures ResolveExisting(proc, key, root)
         == Unresolved("/[unresolved]/pid-" + Decimal(key.pid) + "/fd-" + Decimal(key.fd))
  {
    var link := proc.descriptor(key.pid, key.fd);
    if link.Some? {
      ClassifiedByStart(TrimDeleted(link.value));
      TrimmedNoFile(link.value);
      TrimmedLink(link.value);
    }
    hide Classify, NoFile, Names, Display, Absolute, TrimDeleted, Decimal;
  }

  /** A file in memory is named after its link, with look-alikes for slashes. */
  lemma MemoryFileNamed(proc: Procfs, key: FdKey, root: ContainerRoot, name: Bytes, slash: bool) returns (text: string)
    requires !Unlinked(name)
    requires var path := (if slash then [0x2F] else []) + Ascii("memfd:") + name;
             proc.descriptor(key.pid, key.fd) == Some(path + UNLINKED) || proc.descriptor(key.pid, key.fd) == Some(path)
    ensures ResolveExisting(proc, key, root) == Resolved("/[memory]/memfd:" + text)
    ensures |text| == |Display(name)|
    ensures forall i :: 0 <= i < |text| ==>
              text[i] == if Display(name)[i] == '/' then '\U{2215}' else Display(name)[i]
  {
    var path := (if slash then [0x2F] else []) + Ascii("memfd:") + name;
    text := Resolve.Replaced(Display(name), '/', '\U{2215}');
    hide *;
    ReplacedAt(Display(name), '/', '\U{2215}');
    MemoryStart(slash);
    NotUnlinked((if slash then [0x2F] else []) + Ascii("memfd:"), name);
    TargetOf(proc, key, path);
    MemoryClassified(path, name, slash);
    MemoryResolves(proc, key, root, path, name);
  }

  lemma MemoryStart(slash: bool)
    ensures 0x20 !in (if slash then [0x2F] else []) + Ascii("memfd:")
  {
    hide Ascii;
    AsciiSpaces("memfd:");
  }

  lemma MemoryResolves(proc: Procfs, key: FdKey, root: ContainerRoot, path: Bytes, name: Bytes)
    requires Target(proc, key) == Some(path) && Classify(path) == InMemory(MemoryPath(name))
    ensures ResolveExisting(proc, key, root)
         == Resolved("/[memory]/memfd:" + Resolve.Replaced(Display(name), '/', '\U{2215}'))
  {
    hide Classify, Display, Resolve.Replaced, Target;
  }

  lemma {:induction false} ReplacedAt(text: string, from: char, to: char)
    ensures |Resolve.Replaced(text, from, to)| == |text|
    ensures forall i :: 0 <= i < |text| ==> Resolve.Replaced(text, from, to)[i] == if text[i] == from then to else text[i]
  {
    if text != "" { ReplacedAt(text[1..], from, to); }
  }

  /** A name without the suffix has it no more behind a start without spaces. */
  lemma NotUnlinked(start: Bytes, name: Bytes)
    requires 0x20 !in start && !Unlinked(name)
    ensures !Unlinked(start + name)
  {
    hide Ascii;
    SuffixIs();
    NoSuffix(start, name, UNLINKED);
  }

  lemma NoSuffix(start: Bytes, name: Bytes, suffix: Bytes)
    requires suffix != [] && suffix[0] !in start && !(|suffix| <= |name| && name[|name| - |suffix|..] == suffix)
    ensures var path := start + name; !(|suffix| <= |path| && path[|path| - |suffix|..] == suffix)
  {
    var path := start + name;
    if |suffix| <= |name| {
      assert path[|path| - |suffix|..] == name[|name| - |suffix|..];
    } else if |suffix| <= |path| {
      assert path[|path| - |suffix|..][0] == start[|path| - |suffix|];
    }
  }

  lemma MemoryClassified(path: Bytes, name: Bytes, slash: bool)
    requires !Unlinked(path) && path == (if slash then [0x2F] else []) + Ascii("memfd:") + name
    ensures Classify(path) == InMemory(MemoryPath(name))
  {
    hide *;
    var start := Ascii("memfd:");
    TrimmedLink(path);
    AsciiIsUtf8("memfd:");
    KindsAreWords();
    WordStart("memfd:");
    SlashlessOf(start, name, slash);
    StartsOtherwise("socket:", "memfd:", name);
    StartsOtherwise("pipe:", "memfd:", name);
    StartsOtherwise("anon_inode:", "memfd:", name);
    assert (start + name)[|start|..] == name;
    ClassifyIs(path);
  }

  lemma SlashlessOf(start: Bytes, name: Bytes, slash: bool)
    requires start != [] && start[0] != SLASH
    ensures Slashless((if slash then [0x2F] else []) + start + name) == start + name
  {
    var path := (if slash then [0x2F] else []) + start + name;
    assert path == (if slash then [0x2F] else []) + (start + name);
    if slash { assert path[1..] == start + name; } else { assert path == start + name && path[0] == start[0]; }
  }

  lemma StartsOtherwise(a: string, b: string, name: Bytes)
    requires a != "" && b != "" && a[0] as int < 0x80 && b[0] as int < 0x80 && a[0] != b[0]
    ensures !(Utf8(a) <= Ascii(b) + name)
  {
    FirstByte(a);
    FirstByte(b);
    hide Utf8, Ascii;
    assert (Ascii(b) + name)[0] == Ascii(b)[0];
  }

  lemma FirstByte(kind: string)
    requires kind != "" && kind[0] as int < 0x80
    ensures Ascii(kind) != [] && Ascii(kind)[0] == kind[0] as int
    ensures Utf8(kind) != [] && Utf8(kind)[0] == kind[0] as int
  {
  }

  // --- Opened files ---

  /** An absolute path is believed as it is, unless the descriptor turns out to be no file. */
  lemma AbsoluteOpens(proc: Procfs, call: OpenCall, root: ContainerRoot)
    requires call.flags == 0 && OfFile(call.path) && [0x2F] <= call.path
    ensures var link := proc.descriptor(call.pid, call.fd);
            ResolveOpen(proc, call, root)
            == if link.Some? && NoFile(link.value) then Ignored else Resolved(Display(Absolute(call.path)))
  {
    var key := FdKey(call.pid, call.fd);
    ClassifiedByStart(call.path);
    IgnoredIff(proc, key, root);
    TargetIgnored(proc, key, root);
    hide Classify, NoFile, Names, ProcTarget, ResolveExisting, Display, Absolute, Expected, UnresolvedPath;
  }

  lemma TargetIgnored(proc: Procfs, key: FdKey, root: ContainerRoot)
    ensures ProcTarget(proc, key, root) == Some(Ignored) <==> ResolveExisting(proc, key, root) == Ignored
    ensures ProcTarget(proc, key, root).Some? ==> ProcTarget(proc, key, root).value == ResolveExisting(proc, key, root)
    ensures ResolveExisting(proc, key, root).Resolved? ==>
              ProcTarget(proc, key, root) == Some(ResolveExisting(proc, key, root))
  {
    hide ProcTarget;
  }

  /** A relative path counts from the working directory, or from the directory that was
      passed: what it comes to is resolved if procfs says the same of the descriptor, inside
      the process root if the directory lies below it. */
  lemma RelativeOpens(proc: Procfs, call: OpenCall, root: ContainerRoot, base: Bytes, rest: Bytes)
    requires call.flags == 0 && OfFile(call.path) && !([0x2F] <= call.path)
    requires (if call.dirfd == -100 then proc.cwd(call.pid) else proc.descriptor(call.pid, call.dirfd)) == Some(base)
    ensures var found, actual := ResolveOpen(proc, call, root), ResolveExisting(proc, FdKey(call.pid, call.fd), root);
            && (root == None && actual == Resolved(Display(Absolute(base + [0x2F] + call.path))) ==> found == actual)
            && (root.Some? && base == root.value + [0x2F] + rest ==>
                  actual == Resolved(Display(Absolute([0x2F] + rest + [0x2F] + call.path))) ==> found == actual)
            && (root.Some? && !(root.value <= base + [0x2F] + call.path) ==>
                  actual == Resolved(Display(Absolute(base + [0x2F] + call.path))) ==> found == actual)
            && (root == Some(base) && actual == Resolved(Display(Absolute([0x2F] + call.path))) ==> found == actual)
  {
    hide *;
    RelativeIs(proc, call, root, base);
    StripsRoot([], base + [0x2F] + call.path);
    if root.Some? {
      assert root.value + [0x2F] + rest + [0x2F] + call.path == root.value + [0x2F] + (rest + [0x2F] + call.path);
      StripsRoot(root.value, rest + [0x2F] + call.path);
      StripsRoot(root.value, call.path);
      StripsRoot(root.value, base + [0x2F] + call.path);
      assert [0x2F] + (rest + [0x2F] + call.path) == [0x2F] + rest + [0x2F] + call.path;
    }
  }

  lemma RelativeIs(proc: Procfs, call: OpenCall, root: ContainerRoot, base: Bytes)
    requires call.flags == 0 && OfFile(call.path) && !([0x2F] <= call.path)
    requires (if call.dirfd == -100 then proc.cwd(call.pid) else proc.descriptor(call.pid, call.dirfd)) == Some(base)
    ensures var actual := ResolveExisting(proc, FdKey(call.pid, call.fd), root);
            actual == Resolved(Display(Absolute(StripRoot(root, base + [0x2F] + call.path))))
            ==> ResolveOpen(proc, call, root) == actual
  {
    ClassifiedByStart(call.path);
    TargetIgnored(proc, FdKey(call.pid, call.fd), root);
    hide Classify, NoFile, Names, ProcTarget, ResolveExisting, Display, Absolute, UnresolvedPath, StripRoot;
  }

  /** Without that directory, and whenever the path is incomplete, nothing is known but the
      descriptor and the path itself. */
  lemma UnknownOpens(proc: Procfs, call: OpenCall, root: ContainerRoot)
    requires || call.flags != 0
             || (OfFile(call.path) && !([0x2F] <= call.path)
                 && (if call.dirfd == -100 then proc.cwd(call.pid) else proc.descriptor(call.pid, call.dirfd)) == None)
    ensures var text := Display(Relative(call.path));
            ResolveOpen(proc, call, root)
            == Unresolved("/[unresolved]/pid-" + Decimal(call.pid) + "/fd-" + Decimal(call.fd)
                          + if text == "" then "" else "/" + text)
  {
    ClassifiedByStart(call.path);
    hide Classify, NoFile, Names, ProcTarget, Display, Relative, Expected, Decimal;
  }

  /** What procfs says instead counts only if it is no file, or a file in memory. */
  lemma RelativeOtherwise(proc: Procfs, call: OpenCall, root: ContainerRoot)
    requires call.flags == 0 && OfFile(call.path) && !([0x2F] <= call.path)
    requires (if call.dirfd == -100 then proc.cwd(call.pid) else proc.descriptor(call.pid, call.dirfd)).Some?
    ensures var found, actual := ResolveOpen(proc, call, root), ResolveExisting(proc, FdKey(call.pid, call.fd), root);
            && (actual == Ignored ==> found == Ignored)
            && (actual.Resolved? && "/[memory]/" <= actual.path ==> found == actual)
            && (actual.Unresolved? ==> found.Unresolved?)
            && (found.Resolved? ==> found == actual)
  {
    ClassifiedByStart(call.path);
    TargetIgnored(proc, FdKey(call.pid, call.fd), root);
    hide Classify, NoFile, Names, ProcTarget, ResolveExisting, Display, Absolute, UnresolvedPath, StripRoot;
  }
}
