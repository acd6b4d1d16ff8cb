/**
 The symlink walk that decides whether a path on the host is a directory
 (`resolveDirectoryInProbe` in `src/driver/docker-driver.ts`).

 A path is the sequence of its components; the host's filesystem is a map from resolved paths to what a stat
 answers there. Link targets are split at `/`, so they may hold empty, `.` and `..` components.
 */
module DevFolderWalk {
  import opened Wrappers

  type Name = string
  type Path = seq<Name>

  const MAX_SYMLINK_HOPS := 16

  datatype Target = Target(absolute: bool, parts: seq<Name>)

  datatype Reason = NotFound | NotADirectory | Unknown | Unreachable

  /** What a stat answers for a path that exists: its kind, or a failure to answer. */
  datatype Node = Directory | File | Link(target: Target) | Unanswered(reason: Reason)

  type FileSystem = map<Path, Node>

  datatype Outcome = Ok | Failed(reason: Reason)

  predicate IsSkipped(name: Name) {
    name == "" || name == "."
  }

  predicate IsPlain(name: Name) {
    !IsSkipped(name) && name != ".."
  }

  predicate AllPlain(parts: seq<Name>) {
    forall i :: 0 <= i < |parts| ==> IsPlain(parts[i])
  }

  /** Everything that exists lies in a directory that exists, and is named by a real name. */
  ghost predicate WellFormed(fs: FileSystem) {
    && [] in fs && fs[[]] == Directory
    && forall p :: p in fs && p != [] ==>
         IsPlain(p[|p| - 1]) && p[..|p| - 1] in fs && fs[p[..|p| - 1]] == Directory
  }

  function Parent(path: Path): Path {
    if path == [] then [] else path[..|path| - 1]
  }

  predicate IsEmptyTarget(target: Target) {
    !target.absolute && forall i :: 0 <= i < |target.parts| ==> target.parts[i] == ""
  }

  // ---------- The reference: pathname resolution as in section 4.13 of POSIX.1-2017, XBD ----------

  datatype Resolution = At(path: Path) | Refused(reason: Reason)

  /**
   Resolves the components one by one from a directory, following each link where it stands, at most `links`
   of them. A component below a file does not exist.
   */
  function Resolve(fs: FileSystem, at: Path, pending: seq<Name>, links: nat): Resolution
    decreases links, |pending|
  {
    if pending == [] then At(at)
    else
      var first, rest := pending[0], pending[1..];
      if IsSkipped(first) then Resolve(fs, at, rest, links)
      else if first == ".." then Resolve(fs, Parent(at), rest, links)
      else if at + [first] !in fs then Refused(NotFound)
      else
        match fs[at + [first]]
        case Unanswered(reason) => Refused(reason)
        case Link(target) =>
          if links == 0 || IsEmptyTarget(target) then Refused(Unknown)
          else Resolve(fs, if target.absolute then [] else at, target.parts + rest, links - 1)
        case _ => Resolve(fs, at + [first], rest, links)
  }

  // ---------- The walk ----------

  /** `path.posix.normalize` of an absolute path, component by component, on top of what is already normal. */
  function Normalize(base: Path, parts: seq<Name>): Path
    decreases |parts|
  {
    if parts == [] then base
    else if IsSkipped(parts[0]) then Normalize(base, parts[1..])
    else if parts[0] == ".." then Normalize(Parent(base), parts[1..])
    else Normalize(base + [parts[0]], parts[1..])
  }

  function NonEmpty(parts: seq<Name>): (r: seq<Name>) {
    if parts == [] then []
    else (if parts[0] == "" then [] else [parts[0]]) + NonEmpty(parts[1..])
  }

  function Verdict(last: Node): Outcome {
    if last == Directory then Ok else Failed(NotADirectory)
  }

  /** The walk from the middle: after a link it starts over at the root, with the link's target normalized. */
  function Walk(fs: FileSystem, resolved: Path, pending: seq<Name>, hops: nat, last: Option<Node>): Outcome
    requires hops <= MAX_SYMLINK_HOPS
    decreases MAX_SYMLINK_HOPS - hops, |pending|
  {
    if pending == [] then
      if last.Some? then Verdict(last.value)
      else if [] !in fs then Failed(NotFound)
      else if fs[[]].Unanswered? then Failed(fs[[]].reason)
      else Verdict(fs[[]])
    else
      var current, rest := resolved + [pending[0]], pending[1..];
      if current !in fs then Failed(NotFound)
      else
        match fs[current]
        case Unanswered(reason) => Failed(reason)
        case Link(target) =>
          if hops + 1 > MAX_SYMLINK_HOPS || IsEmptyTarget(target) then Failed(Unknown)
          else
            var normalized := Normalize([], (if target.absolute then [] else resolved) + target.parts);
            Walk(fs, [], normalized + rest, hops + 1, Some(fs[current]))
        case _ => Walk(fs, current, rest, hops, Some(fs[current]))
  }

  /** The loop ends on every filesystem, cyclic links included: links left, then components left. */
  method ResolveDirectory(fs: FileSystem, candidate: seq<Name>) returns (outcome: Outcome)
    ensures outcome == Walk(fs, [], NonEmpty(candidate), 0, None)
  {
    var pending := NonEmpty(candidate);
    var resolved: Path := [];
    var hops: nat := 0;
    var last: Option<Node> := None;
    while |pending| > 0
      invariant hops <= MAX_SYMLINK_HOPS
      invariant Walk(fs, resolved, pending, hops, last) == Walk(fs, [], NonEmpty(candidate), 0, None)
      decreases MAX_SYMLINK_HOPS - hops, |pending|
    {
      var component, rest := pending[0], pending[1..];
      var current := resolved + [component];
      if current !in fs {
        return Failed(NotFound);
      }
      var stat := fs[current];
      if stat.Unanswered? {
        return Failed(stat.reason);
      }
      if stat.Link? {
        if hops + 1 > MAX_SYMLINK_HOPS || IsEmptyTarget(stat.target) {
          return Failed(Unknown);
        }
        hops := hops + 1;
        var start := if stat.target.absolute then [] else resolved;
        pending := Normalize([], start + stat.target.parts) + rest;
        resolved := [];
        last := Some(stat);
        continue;
      }
      last := Some(stat);
      resolved := current;
      pending := rest;
    }
    if last.None? {
      if [] !in fs {
        return Failed(NotFound);
      }
      if fs[[]].Unanswered? {
        return Failed(fs[[]].reason);
      }
      last := Some(fs[[]]);
    }
    outcome := if last.value == Directory then Ok else Failed(NotADirectory);
  }

  // ---------- Starting over reaches the same place ----------

  lemma Assoc(a: seq<Name>, b: seq<Name>, c: seq<Name>)
    ensures (a + b) + c == a + (b + c)
  {
  }

  lemma ConsFirst(part: Name, more: seq<Name>, rest: seq<Name>)
    ensures ([part] + more) + rest == [part] + (more + rest)
    ensures ([part] + (more + rest))[1..] == more + rest
  {
  }

  lemma ParentIsADirectory(fs: FileSystem, at: Path)
    requires WellFormed(fs) && at in fs && fs[at] == Directory
    ensures Parent(at) in fs && fs[Parent(at)] == Directory
    ensures at != [] ==> IsPlain(at[|at| - 1])
  {
  }

  /** A directory's ancestors are directories with real names. */
  lemma {:induction false} AncestorsAreDirectories(fs: FileSystem, path: Path, n: nat)
    requires WellFormed(fs) && path in fs && fs[path] == Directory && n <= |path|
    ensures path[..n] in fs && fs[path[..n]] == Directory
    ensures n < |path| ==> IsPlain(path[n])
    decreases |path|
  {
    hide WellFormed, IsPlain;
    if n < |path| {
      ParentIsADirectory(fs, path);
      var parent := Parent(path);
      AncestorsAreDirectories(fs, parent, n);
      assert parent[..n] == path[..n];
    } else {
      assert path[..n] == path;
    }
  }

  lemma StepIntoDirectory(fs: FileSystem, at: Path, first: Name, more: seq<Name>, links: nat)
    requires IsPlain(first) && at + [first] in fs && fs[at + [first]] == Directory
    ensures Resolve(fs, at, [first] + more, links) == Resolve(fs, at + [first], more, links)
  {
    assert ([first] + more)[1..] == more;
  }

  /** Walking a prefix that has been walked before follows no link: it costs none of the links left. */
  lemma {:induction false} RewalkingMeetsNoLink(fs: FileSystem, from: Path, again: Path, pending: seq<Name>, links: nat)
    requires WellFormed(fs) && from + again in fs && fs[from + again] == Directory
    ensures Resolve(fs, from, again + pending, links) == Resolve(fs, from + again, pending, links)
    decreases |again|
  {
    if again == [] {
      assert from + again == from;
      assert again + pending == pending;
    } else {
      hide *;
      var first, more := again[0], again[1..];
      assert again == [first] + more;
      FirstStepIsADirectory(fs, from, first, more, again);
      Assoc([first], more, pending);
      StepIntoDirectory(fs, from, first, more + pending, links);
      RewalkingMeetsNoLink(fs, from + [first], more, pending, links);
    }
  }

  lemma FirstStepIsADirectory(fs: FileSystem, from: Path, first: Name, more: seq<Name>, again: seq<Name>)
    requires again == [first] + more
    requires WellFormed(fs) && from + again in fs && fs[from + again] == Directory
    ensures IsPlain(first) && from + [first] in fs && fs[from + [first]] == Directory
    ensures (from + [first]) + more == from + again
  {
    hide WellFormed;
    var path, n := from + again, |from|;
    AncestorsAreDirectories(fs, path, n);
    AncestorsAreDirectories(fs, path, n + 1);
    assert path[..n + 1] == from + [first];
  }

  /** The components that are not skipped. */
  function Kept(parts: seq<Name>): (r: seq<Name>) {
    if parts == [] then []
    else if IsSkipped(parts[0]) then Kept(parts[1..])
    else [parts[0]] + Kept(parts[1..])
  }

  lemma {:induction false} KeptConcat(a: seq<Name>, b: seq<Name>)
    ensures Kept(a + b) == Kept(a) + Kept(b)
  {
    if a == [] {
      assert a + b == b;
      assert Kept(a) + Kept(b) == Kept(b);
    } else {
      assert (a + b)[1..] == a[1..] + b;
      KeptConcat(a[1..], b);
      Assoc([a[0]], Kept(a[1..]), Kept(b));
    }
  }

  lemma {:induction false} KeptTwice(parts: seq<Name>)
    ensures Kept(Kept(parts)) == Kept(parts)
  {
    if parts != [] {
      KeptTwice(parts[1..]);
      var more := Kept(parts[1..]);
      assert ([parts[0]] + more)[1..] == more;
    }
  }

  /** Empty and `.` components change nothing, wherever they stand. */
  lemma {:induction false} SkippedChangeNothing(fs: FileSystem, at: Path, parts: seq<Name>, rest: seq<Name>, links: nat)
    ensures Resolve(fs, at, parts + rest, links) == Resolve(fs, at, Kept(parts) + rest, links)
    decreases links, |parts|
  {
    if parts == [] {
      assert Kept(parts) + rest == parts + rest;
    } else {
      var first, more := parts[0], parts[1..];
      assert parts == [first] + more;
      ConsFirst(first, more, rest);
      if IsSkipped(first) {
        assert Kept(parts) == Kept(more);
        SkippedChangeNothing(fs, at, more, rest, links);
      } else {
        ConsFirst(first, Kept(more), rest);
        assert Kept(parts) == [first] + Kept(more);
        if first == ".." {
          SkippedChangeNothing(fs, Parent(at), more, rest, links);
        } else if at + [first] in fs {
          SkippedBehindAName(fs, at, first, more, rest, links);
        }
      }
    }
  }

  lemma {:induction false} SkippedBehindAName(
      fs: FileSystem, at: Path, first: Name, more: seq<Name>, rest: seq<Name>, links: nat)
    requires IsPlain(first) && at + [first] in fs
    ensures Resolve(fs, at, [first] + (more + rest), links) == Resolve(fs, at, [first] + (Kept(more) + rest), links)
    decreases links, |more| + 1, 0
  {
    ConsFirst(first, more, rest);
    ConsFirst(first, Kept(more), rest);
    var node := fs[at + [first]];
    if node.Link? {
      if links > 0 && !IsEmptyTarget(node.target) {
        var start, parts := if node.target.absolute then [] else at, node.target.parts;
        SkippedBehindALink(fs, start, parts, more, rest, links - 1);
      }
    } else if !node.Unanswered? {
      SkippedChangeNothing(fs, at + [first], more, rest, links);
    }
  }

  lemma {:induction false} SkippedBehindALink(
      fs: FileSystem, at: Path, parts: seq<Name>, more: seq<Name>, rest: seq<Name>, links: nat)
    ensures Resolve(fs, at, parts + (more + rest), links) == Resolve(fs, at, parts + (Kept(more) + rest), links)
    decreases links, |parts| + |more| + 1, 1
  {
    Assoc(parts, more, rest);
    Assoc(parts, Kept(more), rest);
    KeptConcat(parts, more);
    KeptConcat(parts, Kept(more));
    KeptTwice(more);
    SkippedChangeNothing(fs, at, parts + more, rest, links);
    KeptShorter(more);
    SkippedChangeNothing(fs, at, parts + Kept(more), rest, links);
  }

  lemma {:induction false} KeptShorter(parts: seq<Name>)
    ensures |Kept(parts)| <= |parts|
  {
    if parts != [] {
      KeptShorter(parts[1..]);
    }
  }

  // ---------- Normalizing a target is walking it, when each `..` cancels a real directory ----------

  /** Where the names kept so far lead, if anywhere, `name` is a directory and no link. */
  predicate IsRealDirectory(fs: FileSystem, at: Path, kept: seq<Name>, name: Name, links: nat) {
    var there := Resolve(fs, at, kept, links);
    there.At? ==> there.path + [name] in fs && fs[there.path + [name]] == Directory
  }

  /** Each name a later `..` cancels is a real directory. A `..` with nothing left to cancel leaves `at` itself. */
  predicate CancelsDirectories(fs: FileSystem, at: Path, kept: seq<Name>, parts: seq<Name>, links: nat)
    decreases |parts|
  {
    if parts == [] then true
    else
      var first, more := parts[0], parts[1..];
      if IsSkipped(first) then CancelsDirectories(fs, at, kept, more, links)
      else if first != ".." then CancelsDirectories(fs, at, kept + [first], more, links)
      else if kept == [] then CancelsDirectories(fs, Parent(at), [], more, links)
      else
        var fewer := kept[..|kept| - 1];
        IsRealDirectory(fs, at, fewer, kept[|kept| - 1], links) && CancelsDirectories(fs, at, fewer, more, links)
  }

  /** A real directory and the `..` behind it can be left out. */
  lemma {:induction false} CancelledPair(
      fs: FileSystem, at: Path, before: seq<Name>, name: Name, behind: seq<Name>, links: nat)
    requires IsPlain(name) && IsRealDirectory(fs, at, before, name, links)
    ensures Resolve(fs, at, before + ([name, ".."] + behind), links) == Resolve(fs, at, before + behind, links)
    decreases links, |before|
  {
    var pair := [name, ".."] + behind;
    if before == [] {
      assert before + pair == pair && before + behind == behind;
      assert pair[1..] == [".."] + behind && ([".."] + behind)[1..] == behind;
      assert Parent(at + [name]) == at;
    } else {
      var first, more := before[0], before[1..];
      assert before == [first] + more;
      ConsFirst(first, more, pair);
      ConsFirst(first, more, behind);
      if IsSkipped(first) {
        CancelledPair(fs, at, more, name, behind, links);
      } else if first == ".." {
        CancelledPair(fs, Parent(at), more, name, behind, links);
      } else if at + [first] in fs {
        CancelledBehindAName(fs, at, first, more, name, behind, links);
      }
    }
  }

  lemma {:induction false} CancelledBehindAName(
      fs: FileSystem, at: Path, first: Name, more: seq<Name>, name: Name, behind: seq<Name>, links: nat)
    requires IsPlain(first) && at + [first] in fs
    requires IsPlain(name) && IsRealDirectory(fs, at, [first] + more, name, links)
    ensures Resolve(fs, at, [first] + (more + ([name, ".."] + behind)), links)
         == Resolve(fs, at, [first] + (more + behind), links)
    decreases links, |more| + 1, 0
  {
    var pair := [name, ".."] + behind;
    ConsFirst(first, more, pair);
    ConsFirst(first, more, behind);
    assert ([first] + more)[1..] == more;
    var node := fs[at + [first]];
    if node.Link? {
      if links > 0 && !IsEmptyTarget(node.target) {
        var start, parts := if node.target.absolute then [] else at, node.target.parts;
        Assoc(parts, more, pair);
        Assoc(parts, more, behind);
        CancelledPair(fs, start, parts + more, name, behind, links - 1);
      }
    } else if !node.Unanswered? {
      CancelledPair(fs, at + [first], more, name, behind, links);
    }
  }

  lemma {:induction false} NormalizeOnto(base: Path, parts: seq<Name>)
    requires AllPlain(base)
    ensures Normalize([], base + parts) == Normalize(base, parts)
  {
    NormalizePlainPrefix([], base, parts);
    assert [] + base == base;
  }

  lemma {:induction false} NormalizePlainPrefix(done: Path, base: Path, parts: seq<Name>)
    requires AllPlain(base)
    ensures Normalize(done, base + parts) == Normalize(done + base, parts)
    decreases |base|
  {
    if base == [] {
      assert base + parts == parts && done + base == done;
    } else {
      assert (base + parts)[1..] == base[1..] + parts;
      NormalizePlainPrefix(done + [base[0]], base[1..], parts);
      assert (done + [base[0]]) + base[1..] == done + base;
    }
  }

  lemma {:induction false} NormalizedIsPlain(base: Path, parts: seq<Name>)
    requires AllPlain(base)
    ensures AllPlain(Normalize(base, parts))
    decreases |parts|
  {
    if parts != [] {
      var next :=
        if IsSkipped(parts[0]) then base else if parts[0] == ".." then Parent(base) else base + [parts[0]];
      NormalizedIsPlain(next, parts[1..]);
    }
  }

  /**
   Following a link where it stands, or starting over at the root with its target normalized: the same.
   `kept` are the names of the target read so far and not cancelled.
   */
  lemma {:induction false} StartingOver(
      fs: FileSystem, at: Path, kept: seq<Name>, parts: seq<Name>, rest: seq<Name>, links: nat)
    requires WellFormed(fs) && at in fs && fs[at] == Directory && AllPlain(kept)
    requires CancelsDirectories(fs, at, kept, parts, links)
    ensures Resolve(fs, at, kept + (parts + rest), links) == Resolve(fs, [], Normalize(at + kept, parts) + rest, links)
    decreases |parts|
  {
    if parts == [] {
      assert parts + rest == rest;
      NamesFromHere(fs, at, kept, rest, links);
    } else {
      hide WellFormed, Resolve, IsPlain, AllPlain, IsRealDirectory;
      PlainNames(kept, parts[0]);
      var first, more := parts[0], parts[1..];
      assert parts == [first] + more;
      Assoc([first], more, rest);
      if IsSkipped(first) {
        SkipOne(fs, at, kept, first, more + rest, links);
        StartingOver(fs, at, kept, more, rest, links);
      } else if first != ".." {
        KeepOne(at, kept, first, more + rest);
        StartingOver(fs, at, kept + [first], more, rest, links);
      } else if kept == [] {
        LeaveDirectory(fs, at, kept, more + rest, links);
        StartingOver(fs, Parent(at), [], more, rest, links);
      } else {
        var fewer, name := kept[..|kept| - 1], kept[|kept| - 1];
        CancelOne(fs, at, fewer, name, more + rest, links);
        ParentOfKept(at, kept);
        StartingOver(fs, at, fewer, more, rest, links);
      }
    }
  }

  // One component of a target.

  lemma PlainNames(kept: seq<Name>, first: Name)
    requires AllPlain(kept)
    ensures !IsSkipped(first) && first != ".." ==> AllPlain(kept + [first])
    ensures kept != [] ==> AllPlain(kept[..|kept| - 1]) && IsPlain(kept[|kept| - 1])
    ensures AllPlain([])
  {
  }

  lemma ParentOfKept(at: Path, kept: seq<Name>)
    requires kept != []
    ensures kept == kept[..|kept| - 1] + [kept[|kept| - 1]]
    ensures Parent(at + kept) == at + kept[..|kept| - 1]
  {
  }

  lemma SkipOne(fs: FileSystem, at: Path, kept: seq<Name>, first: Name, behind: seq<Name>, links: nat)
    requires IsSkipped(first)
    ensures Resolve(fs, at, kept + ([first] + behind), links) == Resolve(fs, at, kept + behind, links)
  {
    Assoc(kept, [first], behind);
    SkippedChangeNothing(fs, at, kept + [first], behind, links);
    SkippedChangeNothing(fs, at, kept, behind, links);
    KeptConcat(kept, [first]);
    assert Kept([first]) == [] && Kept(kept) + [] == Kept(kept);
  }

  lemma KeepOne(at: Path, kept: seq<Name>, first: Name, behind: seq<Name>)
    requires !IsSkipped(first) && first != ".."
    ensures kept + ([first] + behind) == (kept + [first]) + behind && at + (kept + [first]) == (at + kept) + [first]
    ensures IsPlain(first)
  {
    Assoc(kept, [first], behind);
    Assoc(at, kept, [first]);
  }

  lemma LeaveDirectory(fs: FileSystem, at: Path, kept: seq<Name>, behind: seq<Name>, links: nat)
    requires WellFormed(fs) && at in fs && fs[at] == Directory && kept == []
    ensures Parent(at) in fs && fs[Parent(at)] == Directory && at + kept == at && Parent(at) + [] == Parent(at)
    ensures Resolve(fs, at, kept + ([".."] + behind), links) == Resolve(fs, Parent(at), [] + behind, links)
  {
    ParentIsADirectory(fs, at);
    assert kept + ([".."] + behind) == [".."] + behind && ([".."] + behind)[1..] == behind && [] + behind == behind;
  }

  lemma CancelOne(fs: FileSystem, at: Path, fewer: seq<Name>, name: Name, behind: seq<Name>, links: nat)
    requires IsPlain(name) && IsRealDirectory(fs, at, fewer, name, links)
    ensures Resolve(fs, at, (fewer + [name]) + ([".."] + behind), links) == Resolve(fs, at, fewer + behind, links)
  {
    CancelledPair(fs, at, fewer, name, behind, links);
    Assoc(fewer, [name], [".."] + behind);
    assert [name] + ([".."] + behind) == [name, ".."] + behind;
  }

  lemma NamesFromHere(fs: FileSystem, at: Path, names: seq<Name>, rest: seq<Name>, links: nat)
    requires WellFormed(fs) && at in fs && fs[at] == Directory
    ensures Resolve(fs, at, names + rest, links) == Resolve(fs, [], (at + names) + rest, links)
  {
    hide Resolve, WellFormed;
    assert [] + at == at;
    RewalkingMeetsNoLink(fs, [], at, names + rest, links);
    Assoc(at, names, rest);
  }

  lemma DirectoryIsPlain(fs: FileSystem, path: Path)
    requires WellFormed(fs) && path in fs && fs[path] == Directory
    ensures AllPlain(path)
  {
    hide WellFormed;
    forall i | 0 <= i < |path| ensures IsPlain(path[i]) {
      AncestorsAreDirectories(fs, path, i);
    }
  }

  // ---------- The walk against the reference ----------

  /** What the reference says about a resolution: whether the path it names is a directory. */
  function Judge(fs: FileSystem, resolution: Resolution): Outcome {
    match resolution
    case Refused(reason) => Failed(reason)
    case At(path) => if path in fs && fs[path] == Directory then Ok else Failed(NotADirectory)
  }

  /** The walk's answer, given where the reference ends: the root reached through a link is not recognised. */
  function Expected(fs: FileSystem, resolution: Resolution, throughLink: bool): Outcome {
    if throughLink && resolution == At([]) then Failed(NotADirectory) else Judge(fs, resolution)
  }

  /** What the loop knows of the last stat: it is of the path resolved so far, or of a link just followed. */
  predicate LastStat(fs: FileSystem, resolved: Path, last: Option<Node>) {
    if resolved == [] then last.None? || last.value.Link?
    else resolved in fs && last == Some(fs[resolved]) && !last.value.Link? && !last.value.Unanswered?
  }

  /** The links met on the way, and no others: each of their `..` cancels a real directory. */
  predicate HarmlessUps(fs: FileSystem, resolved: Path, pending: seq<Name>, hops: nat)
    requires hops <= MAX_SYMLINK_HOPS
    decreases MAX_SYMLINK_HOPS - hops, |pending|
  {
    if pending == [] || resolved + [pending[0]] !in fs then true
    else
      var current, rest := resolved + [pending[0]], pending[1..];
      match fs[current]
      case Unanswered(_) => true
      case Link(target) =>
        if hops == MAX_SYMLINK_HOPS || IsEmptyTarget(target) then true
        else
          var start := if target.absolute then [] else resolved;
          && CancelsDirectories(fs, start, [], target.parts, MAX_SYMLINK_HOPS - hops - 1)
          && HarmlessUps(fs, [], Normalize([], start + target.parts) + rest, hops + 1)
      case _ => HarmlessUps(fs, current, rest, hops)
  }

  lemma {:induction false} WalkFollowsReference(
      fs: FileSystem, resolved: Path, pending: seq<Name>, hops: nat, last: Option<Node>)
    requires hops <= MAX_SYMLINK_HOPS && WellFormed(fs) && HarmlessUps(fs, resolved, pending, hops) && AllPlain(pending)
    requires LastStat(fs, resolved, last)
    ensures Walk(fs, resolved, pending, hops, last)
         == Expected(fs, Resolve(fs, resolved, pending, MAX_SYMLINK_HOPS - hops), pending != [] || last.Some?)
    decreases MAX_SYMLINK_HOPS - hops, |pending|
  {
    hide WellFormed, Normalize, IsEmptyTarget, Walk, Resolve, Expected, IsPlain, LastStat, CancelsDirectories;
    if pending == [] {
      WalkEnds(fs, resolved, hops, last);
    } else {
      var first, rest := pending[0], pending[1..];
      assert pending == [first] + rest;
      var current, left := resolved + [first], MAX_SYMLINK_HOPS - hops;
      assert IsPlain(first);
      if current in fs && (fs[current].Directory? || fs[current].File?) {
        IntoOne(fs, resolved, first, rest, hops, last);
        LastIsKnown(fs, resolved, first);
        WalkFollowsReference(fs, current, rest, hops, Some(fs[current]));
      } else if current in fs && fs[current].Link? && left > 0 && !IsEmptyTarget(fs[current].target) {
        ThroughOne(fs, resolved, first, rest, hops, last);
        LinkStep(fs, resolved, first, rest, left - 1);
        LastIsKnown(fs, resolved, first);
        var again := Normalize([], Start(fs, resolved, first) + fs[current].target.parts) + rest;
        WalkFollowsReference(fs, [], again, hops + 1, Some(fs[current]));
      } else {
        StopsAtOne(fs, resolved, first, rest, hops, last);
      }
    }
  }

  function Start(fs: FileSystem, resolved: Path, first: Name): Path
    requires resolved + [first] in fs && fs[resolved + [first]].Link?
  {
    if fs[resolved + [first]].target.absolute then [] else resolved
  }

  lemma LastIsKnown(fs: FileSystem, at: Path, first: Name)
    requires at + [first] in fs && !fs[at + [first]].Unanswered?
    ensures if fs[at + [first]].Link? then LastStat(fs, [], Some(fs[at + [first]]))
            else LastStat(fs, at + [first], Some(fs[at + [first]]))
  {
  }

  lemma WalkEnds(fs: FileSystem, resolved: Path, hops: nat, last: Option<Node>)
    requires WellFormed(fs) && hops <= MAX_SYMLINK_HOPS && LastStat(fs, resolved, last)
    ensures Walk(fs, resolved, [], hops, last)
         == Expected(fs, Resolve(fs, resolved, [], MAX_SYMLINK_HOPS - hops), last.Some?)
  {
  }

  // One component, in the walk and in the reference.

  lemma IntoOne(fs: FileSystem, at: Path, first: Name, rest: seq<Name>, hops: nat, last: Option<Node>)
    requires IsPlain(first) && hops <= MAX_SYMLINK_HOPS
    requires at + [first] in fs && (fs[at + [first]].Directory? || fs[at + [first]].File?)
    ensures Walk(fs, at, [first] + rest, hops, last) == Walk(fs, at + [first], rest, hops, Some(fs[at + [first]]))
    ensures forall links: nat ::
      Resolve(fs, at, [first] + rest, links) == Resolve(fs, at + [first], rest, links)
  {
    assert ([first] + rest)[1..] == rest;
  }

  lemma ThroughOne(fs: FileSystem, at: Path, first: Name, rest: seq<Name>, hops: nat, last: Option<Node>)
    requires IsPlain(first) && hops < MAX_SYMLINK_HOPS
    requires at + [first] in fs && fs[at + [first]].Link? && !IsEmptyTarget(fs[at + [first]].target)
    ensures var parts := fs[at + [first]].target.parts;
      && Walk(fs, at, [first] + rest, hops, last)
         == Walk(fs, [], Normalize([], Start(fs, at, first) + parts) + rest, hops + 1, Some(fs[at + [first]]))
      && Resolve(fs, at, [first] + rest, MAX_SYMLINK_HOPS - hops)
         == Resolve(fs, Start(fs, at, first), parts + rest, MAX_SYMLINK_HOPS - hops - 1)
  {
    hide IsEmptyTarget, Normalize;
    assert ([first] + rest)[1..] == rest;
  }

  lemma StopsAtOne(fs: FileSystem, at: Path, first: Name, rest: seq<Name>, hops: nat, last: Option<Node>)
    requires IsPlain(first) && hops <= MAX_SYMLINK_HOPS
    requires at + [first] !in fs || fs[at + [first]].Unanswered?
             || (fs[at + [first]].Link? && (hops == MAX_SYMLINK_HOPS || IsEmptyTarget(fs[at + [first]].target)))
    ensures Walk(fs, at, [first] + rest, hops, last)
         == Expected(fs, Resolve(fs, at, [first] + rest, MAX_SYMLINK_HOPS - hops), true)
  {
    hide IsEmptyTarget, Normalize;
  }

  /** One link: the pending components the walk starts over with lead where the link leads from where it stands. */
  lemma LinkStep(fs: FileSystem, resolved: Path, first: Name, rest: seq<Name>, left: nat)
    requires WellFormed(fs) && AllPlain(rest)
    requires resolved + [first] in fs && fs[resolved + [first]].Link?
    requires CancelsDirectories(fs, Start(fs, resolved, first), [], fs[resolved + [first]].target.parts, left)
    ensures var target, start := fs[resolved + [first]].target, Start(fs, resolved, first);
      var again := Normalize([], start + target.parts) + rest;
      AllPlain(again) && Resolve(fs, [], again, left) == Resolve(fs, start, target.parts + rest, left)
  {
    hide WellFormed, Resolve, Normalize, CancelsDirectories;
    var target, start := fs[resolved + [first]].target, Start(fs, resolved, first);
    HoldsDirectory(fs, resolved, first);
    DirectoryIsPlain(fs, start);
    NormalizeOnto(start, target.parts);
    NormalizedIsPlain(start, target.parts);
    StartingOver(fs, start, [], target.parts, rest, left);
    assert [] + (target.parts + rest) == target.parts + rest && start + [] == start;
  }

  lemma HoldsDirectory(fs: FileSystem, at: Path, first: Name)
    requires WellFormed(fs) && at + [first] in fs
    ensures [] in fs && fs[[]] == Directory && at in fs && fs[at] == Directory
  {
    assert (at + [first])[..|at + [first]| - 1] == at;
  }

  lemma {:induction false} KeptNonEmpty(parts: seq<Name>)
    ensures Kept(NonEmpty(parts)) == Kept(parts)
  {
    if parts != [] {
      var more := NonEmpty(parts[1..]);
      KeptNonEmpty(parts[1..]);
      if parts[0] == "" {
        assert NonEmpty(parts) == more;
      } else {
        assert NonEmpty(parts) == [parts[0]] + more;
        assert ([parts[0]] + more)[1..] == more;
      }
    }
  }

  lemma {:induction false} KeptOfPlain(parts: seq<Name>)
    requires AllPlain(parts)
    ensures Kept(parts) == parts
  {
    if parts != [] {
      KeptOfPlain(parts[1..]);
      assert parts == [parts[0]] + parts[1..];
    }
  }

  /**
   For every filesystem and every candidate whose walk meets no `..` behind a link's name, the walk answers what
   POSIX resolution through at most 16 links finds, with one exception: the root reached through a link is
   reported as no directory.
   */
  lemma WalkIsPathnameResolution(fs: FileSystem, candidate: seq<Name>)
    requires WellFormed(fs) && AllPlain(NonEmpty(candidate)) && HarmlessUps(fs, [], NonEmpty(candidate), 0)
    ensures var walked := Walk(fs, [], NonEmpty(candidate), 0, None);
      var reference := Resolve(fs, [], candidate, 16);
      && walked == Expected(fs, reference, NonEmpty(candidate) != [])
      && (walked == Judge(fs, reference) <==> !(reference == At([]) && NonEmpty(candidate) != []))
      && (walked == Ok <==>
            && reference.At? && reference.path in fs && fs[reference.path] == Directory
            && (reference.path != [] || NonEmpty(candidate) == []))
  {
    hide Walk, Resolve, HarmlessUps;
    var pending := NonEmpty(candidate);
    WalkFollowsReference(fs, [], pending, 0, None);
    KeptNonEmpty(candidate);
    KeptOfPlain(pending);
    SkippedChangeNothing(fs, [], candidate, [], MAX_SYMLINK_HOPS);
    assert candidate + [] == candidate && pending + [] == pending;
  }

  predicate NoUps(parts: seq<Name>) {
    forall i :: 0 <= i < |parts| ==> parts[i] != ".."
  }

  /** No `..` stands behind a real name. */
  predicate UpsLead(parts: seq<Name>) {
    NoUps(parts) || (!IsPlain(parts[0]) && UpsLead(parts[1..]))
  }

  lemma {:induction false} LeadingUpsCancelNothing(
      fs: FileSystem, at: Path, kept: seq<Name>, parts: seq<Name>, links: nat)
    requires NoUps(parts) || (UpsLead(parts) && kept == [])
    ensures CancelsDirectories(fs, at, kept, parts, links)
    decreases |parts|
  {
    hide IsRealDirectory;
    if parts != [] {
      var first, more := parts[0], parts[1..];
      if IsSkipped(first) {
        LeadingUpsCancelNothing(fs, at, kept, more, links);
      } else if first != ".." {
        LeadingUpsCancelNothing(fs, at, kept + [first], more, links);
      } else {
        LeadingUpsCancelNothing(fs, Parent(at), [], more, links);
      }
    }
  }

  /** In particular nothing on the filesystem can hurt whose targets have their `..` first. */
  lemma {:induction false} LeadingUpsAreHarmless(fs: FileSystem, resolved: Path, pending: seq<Name>, hops: nat)
    requires hops <= MAX_SYMLINK_HOPS && forall p :: p in fs && fs[p].Link? ==> UpsLead(fs[p].target.parts)
    ensures HarmlessUps(fs, resolved, pending, hops)
    decreases MAX_SYMLINK_HOPS - hops, |pending|
  {
    hide CancelsDirectories, UpsLead, Normalize, IsEmptyTarget;
    if pending != [] && resolved + [pending[0]] in fs {
      var current, rest := resolved + [pending[0]], pending[1..];
      match fs[current]
      case Unanswered(_) =>
      case Link(target) =>
        if hops < MAX_SYMLINK_HOPS {
          var start := if target.absolute then [] else resolved;
          LeadingUpsCancelNothing(fs, start, [], target.parts, MAX_SYMLINK_HOPS - hops - 1);
          LeadingUpsAreHarmless(fs, [], Normalize([], start + target.parts) + rest, hops + 1);
        }
      case _ => LeadingUpsAreHarmless(fs, current, rest, hops);
    }
  }

  /** A link to the root is one: POSIX finds the root directory, the walk says it is not a directory. */
  lemma LinkToRootIsNotRecognised()
    ensures var fs := map[[] := Directory, ["r"] := Link(Target(true, []))];
      && Resolve(fs, [], ["r"], MAX_SYMLINK_HOPS) == At([]) && fs[[]] == Directory
      && Walk(fs, [], NonEmpty(["r"]), 0, None) == Failed(NotADirectory)
  {
    var root: Path := [];
    var fs := map[root := Directory, ["r"] := Link(Target(true, []))];
    assert root + ["r"] == ["r"];
    assert Resolve(fs, [], ["r"], MAX_SYMLINK_HOPS) == Resolve(fs, [], [], 15);
    assert NonEmpty(["r"]) == ["r"];
  }

  /** Two links: `/a` to `b/../x`, and `/b` to `/c/d`. */
  function UpsBehindALink(): FileSystem {
    map[[] := Directory, ["c"] := Directory, ["c", "d"] := Directory, ["c", "x"] := Directory,
        ["a"] := Link(Target(false, ["b", "..", "x"])), ["b"] := Link(Target(true, ["c", "d"]))]
  }

  /** Normalizing `b/../x` forgets the link `b`: the walk looks for `/x` and misses the directory `/c/x`. */
  lemma UpsBehindALinkAreLost()
    ensures Resolve(UpsBehindALink(), [], ["a"], MAX_SYMLINK_HOPS) == At(["c", "x"])
    ensures ["c", "x"] in UpsBehindALink() && UpsBehindALink()[["c", "x"]] == Directory
    ensures Walk(UpsBehindALink(), [], NonEmpty(["a"]), 0, None) == Failed(NotFound)
  {
    PosixGoesUpBehindTheLink();
    hide Resolve;
    var fs, root: Path := UpsBehindALink(), [];
    assert NonEmpty(["a"]) == ["a"] && root + ["a"] == ["a"];
    NormalizedForgetsTheLink();
    assert Walk(fs, root, ["a"], 0, None) == Walk(fs, root, ["x"] + [], 1, Some(fs[["a"]]));
    assert root + ["x"] == ["x"] && ["x"] + [] == ["x"];
  }

  lemma PosixGoesUpBehindTheLink()
    ensures Resolve(UpsBehindALink(), [], ["a"], MAX_SYMLINK_HOPS) == At(["c", "x"])
  {
    var fs, root: Path := UpsBehindALink(), [];
    var parts, follow := ["b", "..", "x"], ["c", "d", "..", "x"];
    assert root + ["a"] == ["a"] && root + ["b"] == ["b"] && parts + [] == parts;
    assert parts[1..] == ["..", "x"] && ["c", "d"] + parts[1..] == follow;
    assert Resolve(fs, root, ["a"], 16) == Resolve(fs, root, parts, 15) == Resolve(fs, root, follow, 14);
    assert root + ["c"] == ["c"] && follow[1..] == ["d", "..", "x"];
    assert Resolve(fs, root, follow, 14) == Resolve(fs, ["c"], ["d", "..", "x"], 14);
    assert ["c"] + ["d"] == ["c", "d"] && ["d", "..", "x"][1..] == ["..", "x"];
    assert Parent(["c", "d"]) == ["c"] && ["..", "x"][1..] == ["x"];
    assert Resolve(fs, ["c"], ["d", "..", "x"], 14) == Resolve(fs, ["c"], ["x"], 14);
    assert ["c"] + ["x"] == ["c", "x"];
  }

  lemma NormalizedForgetsTheLink()
    ensures Normalize([], [] + ["b", "..", "x"]) == ["x"]
  {
    assert [] + ["b", "..", "x"] == ["b", "..", "x"];
    assert ["b", "..", "x"][1..] == ["..", "x"] && ["..", "x"][1..] == ["x"];
    assert Parent(["b"]) == [];
    assert Normalize(["b"], ["..", "x"]) == Normalize([], ["x"]);
  }
}
