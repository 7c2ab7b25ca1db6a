/** Assembling a namespace from an fstab: which volumes it names, and in which order they are attached. */
module Fstab {
  import opened Machine
  import opened Paths
  import opened StableSort
  import opened M = MountTree
  import N = Namespace

  datatype Source = Uuid(text: string) | Device(path: string) | OtherSource | NoSource

  datatype RootSelector = DefaultRoot | AtPath(path: string) | AtId(id: nat)

  /** An fstab line; `root` is None when its `subvolid` does not parse. */
  datatype Entry = Entry(source: Source, mountPoint: string, fsType: string, noauto: bool, nofail: bool,
                         root: Option<RootSelector>)

  datatype Volume = Volume(fs: Fs, uuid: Option<string>)

  /** Where child filesystems come from; listing the candidates can fail, and so can opening one. */
  datatype Siblings<!A> = Siblings(root: A, candidates: Option<seq<A>>, open: (A, RootSelector) -> Option<Volume>)

  const BY_UUID := "/dev/disk/by-uuid/"

  const VIRTUAL: set<string> :=
    {"proc", "sysfs", "devtmpfs", "devpts", "tmpfs", "swap", "cgroup", "cgroup2", "debugfs", "securityfs", "pstore",
     "efivarfs"}

  function SourceUuid(source: Source): Option<string> {
    match source
    case Uuid(text) => Some(text)
    case Device(path) => if |BY_UUID| <= |path| && path[..|BY_UUID|] == BY_UUID then Some(path[|BY_UUID|..]) else None
    case _ => None
  }

  predicate IsVirtual(entry: Entry) {
    entry.source.NoSource? || entry.fsType in VIRTUAL
  }

  function LowerChar(c: char): char {
    if 'A' <= c <= 'Z' then c - 'A' + 'a' else c
  }

  function NormalizeUuid(uuid: string): (r: string)
    ensures |r| == |uuid| && forall i :: 0 <= i < |uuid| ==> r[i] == LowerChar(uuid[i])
  {
    seq(|uuid|, i requires 0 <= i < |uuid| => LowerChar(uuid[i]))
  }

  // ------------------------------------------------------------------
  // Finding the volumes
  // ------------------------------------------------------------------

  /** The UUID a candidate answers to: none if it is the root, does not open, or has no UUID. */
  function FoundAt<A(==)>(s: Siblings<A>, a: A): Option<string> {
    if a == s.root then None
    else match s.open(a, DefaultRoot)
      case None => None
      case Some(volume) => Normalized(volume.uuid)
  }

  function Normalized(uuid: Option<string>): Option<string> {
    if uuid.Some? then Some(NormalizeUuid(uuid.value)) else None
  }

  /** The first candidate, in search order, that is found with the wanted UUID. */
  ghost function FirstCarrier<A, U>(found: A -> Option<U>, candidates: seq<A>, wanted: U): Option<A> {
    if candidates == [] then None
    else if found(candidates[0]) == Some(wanted) then Some(candidates[0])
    else FirstCarrier(found, candidates[1..], wanted)
  }

  /** It is found with the UUID, nothing before it is, and there is none only if nothing is. */
  lemma {:induction false} FirstCarrierIsFirst<A, U>(found: A -> Option<U>, candidates: seq<A>, wanted: U)
    returns (i: nat)
    ensures i <= |candidates| && forall j :: 0 <= j < i ==> found(candidates[j]) != Some(wanted)
    ensures FirstCarrier(found, candidates, wanted) == if i < |candidates| then Some(candidates[i]) else None
    ensures i < |candidates| ==> found(candidates[i]) == Some(wanted)
  {
    if candidates == [] || found(candidates[0]) == Some(wanted) {
      i := 0;
    } else {
      var k := FirstCarrierIsFirst(found, candidates[1..], wanted);
      i := k + 1;
      assert forall j :: 1 <= j < |candidates| ==> candidates[j] == candidates[1..][j - 1];
    }
  }

  datatype Search<!A, !U> = Search(rootAddress: A, rootUuid: Option<U>, found: A -> Option<U>)

  ghost function SearchOf<A>(s: Siblings<A>, rootUuid: Option<string>): Search<A, string> {
    Search(s.root, Normalized(rootUuid), (a: A) => FoundAt(s, a))
  }

  /** The volume answering to a UUID: the root if it carries it, and otherwise the first candidate that does. */
  ghost function Answer<A, U>(q: Search<A, U>, candidates: seq<A>, wanted: U): Option<A> {
    if q.rootUuid == Some(wanted) then Some(q.rootAddress) else FirstCarrier(q.found, candidates, wanted)
  }

  ghost predicate Answers<A, U>(q: Search<A, U>, candidates: seq<A>, requested: set<U>, resolved: map<U, A>) {
    && resolved.Keys <= requested
    && (forall u :: u in requested ==> Answer(q, candidates, u) == if u in resolved then Some(resolved[u]) else None)
  }

  function Learn<A, U(==)>(requested: set<U>, resolved: map<U, A>, a: A, uuid: Option<U>): map<U, A> {
    if uuid.Some? && uuid.value in requested && uuid.value !in resolved then resolved[uuid.value := a] else resolved
  }

  lemma {:induction false} FirstCarrierOn<A, U>(found: A -> Option<U>, done: seq<A>, a: A, wanted: U)
    ensures FirstCarrier(found, done + [a], wanted) ==
      if FirstCarrier(found, done, wanted).Some? then FirstCarrier(found, done, wanted)
      else if found(a) == Some(wanted) then Some(a) else None
    decreases |done|
  {
    if done != [] {
      FirstCarrierOn(found, done[1..], a, wanted);
      assert (done + [a])[1..] == done[1..] + [a];
    }
  }

  /** One more candidate: it adds its own UUID, if that was wanted and nothing answered yet. */
  lemma AnswersOn<A, U>(q: Search<A, U>, done: seq<A>, requested: set<U>, resolved: map<U, A>, a: A)
    requires Answers(q, done, requested, resolved)
    ensures Answers(q, done + [a], requested, Learn(requested, resolved, a, q.found(a)))
  {
    forall u | u in requested
      ensures Answer(q, done + [a], u) ==
        if Answer(q, done, u).Some? then Answer(q, done, u) else if q.found(a) == Some(u) then Some(a) else None
    {
      FirstCarrierOn(q.found, done, a, u);
    }
  }

  lemma {:induction false} FirstCarrierKeeps<A, U>(found: A -> Option<U>, done: seq<A>, more: seq<A>, wanted: U)
    ensures FirstCarrier(found, done, wanted).Some? ==>
      FirstCarrier(found, done + more, wanted) == FirstCarrier(found, done, wanted)
    decreases |done|
  {
    if done != [] {
      FirstCarrierKeeps(found, done[1..], more, wanted);
      assert (done + more)[1..] == done[1..] + more;
    }
  }

  /** Once everything is found, the candidates that were not tried would change nothing. */
  lemma StoppingEarlyLosesNothing<A, U>(q: Search<A, U>, done: seq<A>, all: seq<A>, requested: set<U>,
                                        resolved: map<U, A>)
    requires Answers(q, done, requested, resolved) && requested <= resolved.Keys && done <= all
    ensures Answers(q, all, requested, resolved)
  {
    forall u | u in requested
      ensures Answer(q, all, u) == Answer(q, done, u)
    {
      FirstCarrierKeeps(q.found, done, all[|done|..], u);
      assert done + all[|done|..] == all;
    }
  }

  /** The root's own answer, before any candidate is opened. */
  lemma RootAnswers<A, U>(q: Search<A, U>, requested: set<U>)
    ensures Answers(q, [], requested, Learn(requested, map[], q.rootAddress, q.rootUuid))
  {
  }

  function Listed<A>(s: Siblings<A>): seq<A> {
    if s.candidates.Some? then s.candidates.value else []
  }

  /** Something is wanted that the root does not answer for, and the candidates cannot be listed. */
  ghost predicate Unlisted<A>(s: Siblings<A>, rootUuid: Option<string>, requested: set<string>) {
    s.candidates.None? && exists u :: u in requested && Normalized(rootUuid) != Some(u)
  }

  /**
   `discover_uuid_addresses`; the error is the candidates', and is met only if the root does not answer for everything.
   */
  method DiscoverUuidAddresses<A(==)>(s: Siblings<A>, rootUuid: Option<string>, requested: set<string>)
    returns (r: Option<map<string, A>>)
    ensures r.None? <==> Unlisted(s, rootUuid, requested)
    ensures r.Some? ==> Answers(SearchOf(s, rootUuid), Listed(s), requested, r.value)
  {
    ghost var q := SearchOf(s, rootUuid);
    var resolved: map<string, A> := Learn(requested, map[], s.root, Normalized(rootUuid));
    RootAnswers(q, requested);
    if requested <= resolved.Keys {
      StoppingEarlyLosesNothing(q, [], Listed(s), requested, resolved);
      return Some(resolved);
    }
    if s.candidates.None? {
      return None;
    }
    var all := s.candidates.value;
    var i := 0;
    while i < |all| && !(requested <= resolved.Keys)
      invariant 0 <= i <= |all| && Answers(q, all[..i], requested, resolved)
    {
      AnswersOn(q, all[..i], requested, resolved, all[i]);
      assert all[..i] + [all[i]] == all[..i + 1];
      resolved := Learn(requested, resolved, all[i], FoundAt(s, all[i]));
      i := i + 1;
    }
    if i < |all| {
      StoppingEarlyLosesNothing(q, all[..i], all, requested, resolved);
    } else {
      assert all[..i] == all;
    }
    r := Some(resolved);
  }

  // ------------------------------------------------------------------
  // The order of attachment
  // ------------------------------------------------------------------

  function CountNames(cs: seq<string>): nat {
    if cs == [] then 0 else (if cs[0] == [] then 0 else 1) + CountNames(cs[1..])
  }

  /** How deep a mount point looks before it is canonicalised. */
  function RawDepth(path: string): nat {
    CountNames(Split(path))
  }

  function DropRoot(entries: seq<Entry>): (r: seq<Entry>)
    ensures forall e :: e in r <==> e in entries && e.mountPoint != "/"
  {
    if entries == [] then []
    else (if entries[0].mountPoint == "/" then [] else [entries[0]]) + DropRoot(entries[1..])
  }

  /** `mount_entries`: the child mounts, shallow before deep, otherwise in file order. */
  function MountEntries(entries: seq<Entry>): seq<Entry> {
    SortBy(DropRoot(entries), EntryDepth)
  }

  function EntryDepth(entry: Entry): nat {
    RawDepth(entry.mountPoint)
  }

  predicate NoDots(cs: seq<string>) {
    forall c :: c in cs ==> c != "." && c != ".."
  }

  /** How many names the dots of a path cost it: `.` counts as one itself, and `..` takes one away besides. */
  function Lost(cs: seq<string>): (r: nat)
    ensures r == 0 <==> NoDots(cs)
  {
    if cs == [] then 0
    else
      assert cs[0] in cs && forall c :: c in cs <==> c == cs[0] || c in cs[1..];
      (if cs[0] == "." then 1 else if cs[0] == ".." then 2 else 0) + Lost(cs[1..])
  }

  lemma {:induction false} ResolveDepth(cs: seq<string>, stack: seq<string>)
    requires Resolve(cs, stack).Some?
    ensures |Resolve(cs, stack).value| + Lost(cs) == |stack| + CountNames(cs)
    decreases |cs|
  {
    if cs != [] {
      var rest := cs[1..];
      assert cs[0] in cs;
      assert forall c :: c in cs <==> c == cs[0] || c in rest;
      if cs[0] == [] || cs[0] == "." {
        ResolveDepth(rest, stack);
      } else if cs[0] == ".." {
        ResolveDepth(rest, stack[..|stack| - 1]);
      } else {
        ResolveDepth(rest, stack + [cs[0]]);
      }
    }
  }

  lemma {:induction false} TrimKeepsDepth(path: string)
    requires NoBackslash(path)
    ensures CountNames(Split(TrimStart(path))) == CountNames(Split(path))
    ensures NoDots(Split(TrimStart(path))) <==> NoDots(Split(path))
    ensures NoBackslash(TrimStart(path))
  {
    if path != [] && path[0] == '/' {
      assert forall x :: x in path[1..] ==> x in path;
      TrimKeepsDepth(path[1..]);
      assert Split(path)[1..] == Split(path[1..]);
      assert forall c :: c in Split(path) <==> c == [] || c in Split(path[1..]);
    } else if path != [] {
      assert path[0] in path;
    }
  }

  /**
   The depth a mount point is sorted by is its real depth iff the names that its backslashes and drive letter hide
   make up for what its dots cost: without either, iff it has no `.` or `..` in it.
   */
  lemma RawDepthIsDepthIff(path: string)
    requires CanonicalPath(path).Some?
    ensures RawDepth(path) == Depth(path) <==>
      CountNames(Split(Normalize(path))) == RawDepth(path) + Lost(Split(Normalize(path)))
    ensures NoBackslash(path) && !HasDrive(path) ==> (RawDepth(path) == Depth(path) <==> NoDots(Split(path)))
  {
    CanonicalPathIsCanonical(path);
    ResolveDepth(Split(Normalize(path)), []);
    if NoBackslash(path) && !HasDrive(path) {
      TrimKeepsDepth(path);
      ForwardSlashesKeeps(TrimStart(path));
    }
  }

  /** A mount point written without drive letters, backslashes, `.` or `..`. */
  predicate Straightforward(path: string) {
    NoBackslash(path) && !HasDrive(path) && NoDots(Split(path)) && Steady(path)
  }

  // ------------------------------------------------------------------
  // Composing
  // ------------------------------------------------------------------

  predicate Skipped(entry: Entry) {
    entry.noauto || IsVirtual(entry)
  }

  function OpenEntry<A>(s: Siblings<A>, resolved: map<string, A>, entry: Entry): Option<Volume> {
    match SourceUuid(entry.source)
    case None => None
    case Some(uuid) =>
      if NormalizeUuid(uuid) !in resolved || entry.root.None? then None
      else s.open(resolved[NormalizeUuid(uuid)], entry.root.value)
  }

  function AttachEntry<A>(ns: Namespace, s: Siblings<A>, resolved: map<string, A>, entry: Entry): Option<Namespace> {
    match OpenEntry(s, resolved, entry)
    case None => None
    case Some(v) => match Attach(ns, entry.mountPoint, v.fs) case Ok(after) => Some(after) case Err(_) => None
  }

  /** Attach the entries in turn: some are skipped, some may fail, and any other failure ends it. */
  function ComposeFrom<A>(ns: Namespace, s: Siblings<A>, resolved: map<string, A>,
                          entries: seq<Entry>): Option<Namespace>
    decreases |entries|
  {
    if entries == [] then Some(ns)
    else if Skipped(entries[0]) then ComposeFrom(ns, s, resolved, entries[1..])
    else match AttachEntry(ns, s, resolved, entries[0])
      case Some(after) => ComposeFrom(after, s, resolved, entries[1..])
      case None => if entries[0].nofail then ComposeFrom(ns, s, resolved, entries[1..]) else None
  }

  /** `validate_root_entry`: the first `/` entry, if it names a UUID, must name this root's. */
  predicate RootIsRight(entries: seq<Entry>, rootUuid: Option<string>)
    decreases |entries|
  {
    if entries == [] then true
    else if entries[0].mountPoint != "/" then RootIsRight(entries[1..], rootUuid)
    else
      var expected := SourceUuid(entries[0].source);
      expected.Some? ==> rootUuid.Some? && NormalizeUuid(rootUuid.value) == NormalizeUuid(expected.value)
  }

  /** Only the first `/` entry is looked at, and it passes unless it names a UUID the root does not have. */
  lemma {:induction false} RootIsRightIff(entries: seq<Entry>, rootUuid: Option<string>, k: nat)
    requires k <= |entries| && forall j :: 0 <= j < k ==> entries[j].mountPoint != "/"
    requires k < |entries| ==> entries[k].mountPoint == "/"
    ensures RootIsRight(entries, rootUuid) <==>
      (k < |entries| && SourceUuid(entries[k].source).Some? ==>
        Normalized(rootUuid) == Normalized(SourceUuid(entries[k].source)))
    decreases |entries|
  {
    if k > 0 {
      RootIsRightIff(entries[1..], rootUuid, k - 1);
    }
  }

  function Requested(entries: seq<Entry>): (r: set<string>)
    ensures forall e :: e in entries && SourceUuid(e.source).Some? ==> NormalizeUuid(SourceUuid(e.source).value) in r
    ensures forall u :: u in r ==>
      exists e :: e in entries && SourceUuid(e.source).Some? && NormalizeUuid(SourceUuid(e.source).value) == u
  {
    set e | e in entries && SourceUuid(e.source).Some? :: NormalizeUuid(SourceUuid(e.source).value)
  }

  ghost function FilterMap<E, R>(xs: seq<E>, f: E -> Option<R>): seq<R> {
    if xs == [] then []
    else match f(xs[0])
      case None => FilterMap(xs[1..], f)
      case Some(x) => [x] + FilterMap(xs[1..], f)
  }

  /** Filtering and mapping keeps the order of what it keeps. */
  lemma {:induction false} FilterMapKeepsOrder<E, R>(xs: seq<E>, f: E -> Option<R>, i: nat, j: nat)
    returns (a: nat, b: nat)
    requires i <= j < |FilterMap(xs, f)|
    ensures a <= b < |xs| && (i < j ==> a < b)
    ensures f(xs[a]) == Some(FilterMap(xs, f)[i]) && f(xs[b]) == Some(FilterMap(xs, f)[j])
    decreases |xs|
  {
    var rest := xs[1..];
    if f(xs[0]).None? {
      a, b := FilterMapKeepsOrder(rest, f, i, j);
      a, b := a + 1, b + 1;
    } else if i > 0 {
      a, b := FilterMapKeepsOrder(rest, f, i - 1, j - 1);
      a, b := a + 1, b + 1;
    } else if j > 0 {
      a, b := FilterMapKeepsOrder(rest, f, 0, j - 1);
      a, b := 0, b + 1;
    } else {
      a, b := 0, 0;
    }
  }

  function RequestOf<A>(s: Siblings<A>, resolved: map<string, A>, entry: Entry): Option<Request> {
    if Skipped(entry) then None
    else match OpenEntry(s, resolved, entry)
      case None => None
      case Some(volume) => Some(Request(entry.mountPoint, volume.fs))
  }

  /** The attachments a composition makes, in order. */
  ghost function Requests<A>(s: Siblings<A>, resolved: map<string, A>, entries: seq<Entry>): seq<Request> {
    FilterMap(entries, (e: Entry) => RequestOf(s, resolved, e))
  }

  lemma {:induction false} ComposingIsAttaching<A>(ns: Namespace, s: Siblings<A>, resolved: map<string, A>,
                                                   entries: seq<Entry>)
    requires ComposeFrom(ns, s, resolved, entries).Some?
    ensures ComposeFrom(ns, s, resolved, entries).value == AttachAll(ns, Requests(s, resolved, entries))
    decreases |entries|
  {
    if entries != [] {
      var requests := Requests(s, resolved, entries);
      var volume := OpenEntry(s, resolved, entries[0]);
      if Skipped(entries[0]) || volume.None? {
        ComposingIsAttaching(ns, s, resolved, entries[1..]);
      } else {
        assert requests[1..] == Requests(s, resolved, entries[1..]);
        match Attach(ns, entries[0].mountPoint, volume.value.fs)
        case Ok(after) => ComposingIsAttaching(after, s, resolved, entries[1..]);
        case Err(_) => ComposingIsAttaching(ns, s, resolved, entries[1..]);
      }
    }
  }

  /** An entry that must be attached and cannot be, where the entries before it have left the namespace. */
  ghost predicate Blocks<A>(ns: Namespace, s: Siblings<A>, resolved: map<string, A>, entries: seq<Entry>, k: nat)
    requires k < |entries|
  {
    && !Skipped(entries[k]) && !entries[k].nofail
    && AttachEntry(AttachAll(ns, Requests(s, resolved, entries[..k])), s, resolved, entries[k]).None?
  }

  /** A composition fails iff some entry blocks it. */
  lemma {:induction false} ComposingFailsIff<A>(ns: Namespace, s: Siblings<A>, resolved: map<string, A>,
                                                entries: seq<Entry>)
    ensures ComposeFrom(ns, s, resolved, entries).None? <==>
      exists k: nat :: k < |entries| && Blocks(ns, s, resolved, entries, k)
    decreases |entries|
  {
    if entries != [] {
      var after := AttachAll(ns, Requests(s, resolved, entries[..1]));
      FirstEntry(ns, s, resolved, entries);
      ComposingFailsIff(after, s, resolved, entries[1..]);
      forall k: nat | k < |entries| - 1
        ensures Blocks(after, s, resolved, entries[1..], k) <==> Blocks(ns, s, resolved, entries, k + 1)
      {
        LaterEntry(ns, s, resolved, entries, k);
      }
      if exists k: nat :: k < |entries| && Blocks(ns, s, resolved, entries, k) {
        var k: nat :| k < |entries| && Blocks(ns, s, resolved, entries, k);
        if k > 0 {
          assert Blocks(after, s, resolved, entries[1..], k - 1);
        }
      }
      if exists k: nat :: k < |entries| - 1 && Blocks(after, s, resolved, entries[1..], k) {
        var k: nat :| k < |entries| - 1 && Blocks(after, s, resolved, entries[1..], k);
        assert Blocks(ns, s, resolved, entries, k + 1);
      }
    }
  }

  lemma FirstEntry<A>(ns: Namespace, s: Siblings<A>, resolved: map<string, A>, entries: seq<Entry>)
    requires entries != []
    ensures
      var after := AttachAll(ns, Requests(s, resolved, entries[..1]));
      ComposeFrom(ns, s, resolved, entries) ==
        if Blocks(ns, s, resolved, entries, 0) then None else ComposeFrom(after, s, resolved, entries[1..])
  {
    var one := entries[..1];
    assert one[1..] == [] && entries[..0] == [];
    assert Requests(s, resolved, []) == [];
    var requests := Requests(s, resolved, one);
    assert requests ==
      match RequestOf(s, resolved, entries[0]) case None => [] case Some(r) => [r] + Requests(s, resolved, one[1..]);
    if requests != [] {
      assert requests[1..] == [];
      assert AttachAll(ns, requests) ==
        match Attach(ns, requests[0].path, requests[0].fs) case Ok(after) => after case Err(_) => ns;
    }
  }

  lemma LaterEntry<A>(ns: Namespace, s: Siblings<A>, resolved: map<string, A>, entries: seq<Entry>, k: nat)
    requires k < |entries| - 1
    ensures
      var after := AttachAll(ns, Requests(s, resolved, entries[..1]));
      Blocks(after, s, resolved, entries[1..], k) <==> Blocks(ns, s, resolved, entries, k + 1)
  {
    var f := (e: Entry) => RequestOf(s, resolved, e);
    assert entries[..k + 1] == entries[..1] + entries[1..][..k];
    FilterMapAppend(entries[..1], entries[1..][..k], f);
    AttachAllAppend(ns, Requests(s, resolved, entries[..1]), Requests(s, resolved, entries[1..][..k]));
  }

  lemma {:induction false} FilterMapAppend<E, R>(a: seq<E>, b: seq<E>, f: E -> Option<R>)
    ensures FilterMap(a + b, f) == FilterMap(a, f) + FilterMap(b, f)
    decreases |a|
  {
    if a == [] {
      assert a + b == b;
    } else {
      assert (a + b)[1..] == a[1..] + b;
      FilterMapAppend(a[1..], b, f);
    }
  }

  lemma {:induction false} AttachAllAppend(ns: Namespace, a: seq<Request>, b: seq<Request>)
    ensures AttachAll(ns, a + b) == AttachAll(AttachAll(ns, a), b)
    decreases |a|
  {
    if a == [] {
      assert a + b == b;
    } else {
      assert (a + b)[1..] == a[1..] + b;
      match Attach(ns, a[0].path, a[0].fs)
      case Ok(after) => AttachAllAppend(after, a[1..], b);
      case Err(_) => AttachAllAppend(ns, a[1..], b);
    }
  }

  ghost predicate SiblingsAreTrees<A(!new)>(s: Siblings<A>) {
    forall a, root :: s.open(a, root).Some? ==> TreeShaped(s.open(a, root).value.fs)
  }

  ghost predicate OrderedBy(entries: seq<Entry>, key: string -> nat) {
    forall i, j :: 0 <= i < j < |entries| ==> key(entries[i].mountPoint) <= key(entries[j].mountPoint)
  }

  /** Attachments come from entries, and in their order. */
  lemma RequestsFollowEntries<A(!new)>(s: Siblings<A>, resolved: map<string, A>, entries: seq<Entry>,
                                       key: string -> nat, i: nat, j: nat)
    requires OrderedBy(entries, key) && SiblingsAreTrees(s) && i <= j < |Requests(s, resolved, entries)|
    ensures TreeShaped(Requests(s, resolved, entries)[i].fs)
    ensures exists e :: e in entries && e.mountPoint == Requests(s, resolved, entries)[i].path
    ensures key(Requests(s, resolved, entries)[i].path) <= key(Requests(s, resolved, entries)[j].path)
  {
    var a, b := FilterMapKeepsOrder(entries, (e: Entry) => RequestOf(s, resolved, e), i, j);
    RequestIsATree(s, resolved, entries[a]);
    RequestIsATree(s, resolved, entries[b]);
    assert entries[a] in entries;
  }

  lemma RequestIsATree<A(!new)>(s: Siblings<A>, resolved: map<string, A>, entry: Entry)
    requires SiblingsAreTrees(s) && RequestOf(s, resolved, entry).Some?
    ensures TreeShaped(RequestOf(s, resolved, entry).value.fs) &&
      RequestOf(s, resolved, entry).value.path == entry.mountPoint
  {
    var volume := OpenEntry(s, resolved, entry).value;
    var uuid := NormalizeUuid(SourceUuid(entry.source).value);
    assert s.open(resolved[uuid], entry.root.value) == Some(volume);
  }

  /** Whatever it skips, an fstab of straightforward mount points composes into a coherent namespace. */
  lemma ComposedFstabIsCoherent<A(!new)>(root: Fs, s: Siblings<A>, resolved: map<string, A>, fstab: seq<Entry>,
                                         path: seq<string>)
    requires TreeShaped(root) && SiblingsAreTrees(s)
    requires forall e :: e in fstab && e.mountPoint != "/" ==> Straightforward(e.mountPoint)
    requires ComposeFrom(Namespace(root, map[]), s, resolved, MountEntries(fstab)).Some?
    ensures
      var ns := ComposeFrom(Namespace(root, map[]), s, resolved, MountEntries(fstab)).value;
      Coherent(ns) && Open(ns, path) != Ok(Synthetic) && QuestionsAgree(ns, path)
  {
    var entries := MountEntries(fstab);
    var requests := Requests(s, resolved, entries);
    MountEntriesAreOrdered(fstab);
    ComposingIsAttaching(Namespace(root, map[]), s, resolved, entries);
    forall i: nat | i < |requests|
      ensures Straightforward(requests[i].path) && TreeShaped(requests[i].fs)
    {
      RequestsFollowEntries(s, resolved, entries, RawDepth, i, i);
    }
    forall i: nat, j: nat | i < j < |requests|
      ensures RawDepth(requests[i].path) <= RawDepth(requests[j].path)
    {
      RequestsFollowEntries(s, resolved, entries, RawDepth, i, j);
    }
    StraightforwardIsShallowFirst(requests);
    ComposedNamespaceIsCoherent(root, requests, path);
  }

  /**
   The child mounts are the entries other than `/`, each as often as it is written, ordered by raw depth and, at equal
   depth, in file order.
   */
  lemma MountEntriesAreOrdered(fstab: seq<Entry>)
    ensures OrderedBy(MountEntries(fstab), RawDepth)
    ensures forall e :: multiset(MountEntries(fstab))[e] == if e.mountPoint == "/" then 0 else multiset(fstab)[e]
    ensures forall depth: nat ::
      WithKey(MountEntries(fstab), EntryDepth, depth) == WithKey(DropRoot(fstab), EntryDepth, depth)
    ensures forall e :: e in MountEntries(fstab) <==> e in fstab && e.mountPoint != "/"
  {
    forall depth: nat
      ensures WithKey(MountEntries(fstab), EntryDepth, depth) == WithKey(DropRoot(fstab), EntryDepth, depth)
    {
      SortByIsStable(DropRoot(fstab), EntryDepth, depth);
    }
    SortByIsStable(DropRoot(fstab), EntryDepth, 0);
    SortByKeepsElements(DropRoot(fstab), EntryDepth);
    forall e
      ensures multiset(MountEntries(fstab))[e] == if e.mountPoint == "/" then 0 else multiset(fstab)[e]
    {
      DropRootCounts(fstab, e);
    }
  }

  lemma {:induction false} DropRootCounts(fstab: seq<Entry>, e: Entry)
    ensures multiset(DropRoot(fstab))[e] == if e.mountPoint == "/" then 0 else multiset(fstab)[e]
    decreases |fstab|
  {
    if fstab != [] {
      var first, rest := fstab[0], fstab[1..];
      DropRootCounts(rest, e);
      assert fstab == [first] + rest;
      assert multiset(fstab)[e] == multiset(rest)[e] + if first == e then 1 else 0;
      if first.mountPoint == "/" {
        assert DropRoot(fstab) == DropRoot(rest);
      } else {
        assert DropRoot(fstab) == [first] + DropRoot(rest);
        assert multiset(DropRoot(fstab))[e] == multiset(DropRoot(rest))[e] + if first == e then 1 else 0;
      }
    }
  }

  /**
   Whatever the mount points look like, a composition that succeeds is coherent after every entry iff each attachment
   it accepts fits: it stands on real directories, and it has those that existing mounts below it need.
   */
  lemma ComposedFstabIsCoherentIff<A>(root: Fs, s: Siblings<A>, resolved: map<string, A>, fstab: seq<Entry>)
    requires ComposeFrom(Namespace(root, map[]), s, resolved, MountEntries(fstab)).Some?
    ensures
      var ns, requests := Namespace(root, map[]), Requests(s, resolved, MountEntries(fstab));
      && ComposeFrom(ns, s, resolved, MountEntries(fstab)).value == AttachAll(ns, requests)
      && ((forall k: nat :: k <= |requests| ==> Coherent(AttachAll(ns, requests[..k]))) <==> EachFits(ns, requests))
  {
    var ns, requests := Namespace(root, map[]), Requests(s, resolved, MountEntries(fstab));
    ComposingIsAttaching(ns, s, resolved, MountEntries(fstab));
    CoherentThroughoutIff(ns, requests);
    ThroughoutIsEveryPrefix(ns, requests);
  }

  lemma StraightforwardIsShallowFirst(requests: seq<Request>)
    requires forall i :: 0 <= i < |requests| ==> Straightforward(requests[i].path) && TreeShaped(requests[i].fs)
    requires forall i, j :: 0 <= i < j < |requests| ==> RawDepth(requests[i].path) <= RawDepth(requests[j].path)
    ensures AllSteady(requests) && ShallowFirst(requests)
  {
    forall i | 0 <= i < |requests| && CanonicalPath(requests[i].path).Some?
      ensures Depth(requests[i].path) == RawDepth(requests[i].path)
    {
      RawDepthIsDepthIff(requests[i].path);
    }
  }

  /** `compose_fstab_namespace` after the fstab has been read and parsed. */
  method Compose<A(==, !new)>(root: Volume, fstab: seq<Entry>, s: Siblings<A>)
    returns (r: Option<N.MountNamespace>, ghost resolved: map<string, A>)
    ensures r.Some? ==> fresh(r.value) && r.value.Valid() && RootIsRight(fstab, root.uuid)
    ensures r.Some? ==> Answers(SearchOf(s, root.uuid), Listed(s), Requested(MountEntries(fstab)), resolved)
    ensures r.Some? ==> ComposeFrom(Namespace(root.fs, map[]), s, resolved, MountEntries(fstab)) == Some(r.value.View())
    ensures r.None? && RootIsRight(fstab, root.uuid) && !Unlisted(s, root.uuid, Requested(MountEntries(fstab))) ==>
      && Answers(SearchOf(s, root.uuid), Listed(s), Requested(MountEntries(fstab)), resolved)
      && ComposeFrom(Namespace(root.fs, map[]), s, resolved, MountEntries(fstab)).None?
    ensures !RootIsRight(fstab, root.uuid) || Unlisted(s, root.uuid, Requested(MountEntries(fstab))) ==> r.None?
  {
    resolved := map[];
    if !RootIsRight(fstab, root.uuid) {
      return None, resolved;
    }
    var entries := MountEntries(fstab);
    var found := DiscoverUuidAddresses(s, root.uuid, Requested(entries));
    if found.None? {
      return None, resolved;
    }
    resolved := found.value;
    var namespace := new N.MountNamespace(root.fs);
    for i := 0 to |entries|
      invariant fresh(namespace) && namespace.Valid()
      invariant ComposeFrom(namespace.View(), s, found.value, entries[i..]) ==
        ComposeFrom(Namespace(root.fs, map[]), s, found.value, entries)
    {
      var entry := entries[i];
      assert entries[i..][1..] == entries[i + 1..];
      if Skipped(entry) {
        continue;
      }
      var child := OpenEntry(s, found.value, entry);
      var attached := false;
      if child.Some? {
        var result := namespace.Attach(entry.mountPoint, child.value.fs);
        attached := result.Ok?;
      }
      if !attached && !entry.nofail {
        return None, resolved;
      }
    }
    r := Some(namespace);
  }
}
