/** Names of pod cgroups: how they are built from pod ids, how they are taken apart
    again, and how the directories of pods are found in a tree. */
module CgroupPaths {

  import opened Basics

  const CGROUP_FS_ROOT := "/sys/fs/cgroup"
  const POD_MARK := "-pod"
  const SLICE := ".slice"

  function Join(dir: string, name: string): string {
    dir + "/" + name
  }

  /** Every occurrence of one character becomes another. */
  function Replace(s: string, from: char, to: char): string {
    seq(|s|, i requires 0 <= i < |s| => if s[i] == from then to else s[i])
  }

  predicate BeginsAt(s: string, pattern: string, i: nat) {
    i + |pattern| <= |s| && s[i..i + |pattern|] == pattern
  }

  /** Where the pattern begins for the first time. */
  function Find(s: string, pattern: string): Option<nat> {
    if BeginsAt(s, pattern, 0) then Some(0)
    else if s == "" then None
    else match Find(s[1..], pattern) { case Some(i) => Some(i + 1) case None => None }
  }

  function TrimSuffix(s: string, suffix: string): string {
    if |suffix| <= |s| && s[|s| - |suffix|..] == suffix then s[..|s| - |suffix|] else s
  }

  function TrimSlashes(s: string): string {
    if s != "" && s[|s| - 1] == '/' then TrimSlashes(s[..|s| - 1]) else s
  }

  function AfterLastSlash(s: string): string {
    if s == "" || s[|s| - 1] == '/' then "" else AfterLastSlash(s[..|s| - 1]) + [s[|s| - 1]]
  }

  /** The last element of a path. */
  function Base(path: string): string {
    if path == "" then "." else
    var trimmed := TrimSlashes(path);
    if trimmed == "" then "/" else AfterLastSlash(trimmed)
  }

  /** The pod id in the name of a pod's cgroup, if the name has that form. */
  function PodIDFromCgroupPath(path: string): Option<string> {
    var base := Base(path);
    match Find(base, POD_MARK)
    case None => None
    case Some(i) => if i + |POD_MARK| <= |base| then Some(TrimSuffix(base[i + |POD_MARK|..], SLICE)) else None
  }

  /** The form of a pod id in cgroup names, and back. */
  function ToCgroupID(uid: string): string {
    Replace(uid, '-', '_')
  }

  function ToPodUID(id: string): string {
    Replace(id, '_', '-')
  }

  const QOS_CLASSES: seq<string> := ["besteffort", "burstable", "guaranteed"]

  /** What the slice names begin with. */
  const SLICE_PREFIXES: seq<string> := ["kubepods", "kubepods-besteffort", "kubepods-burstable", "kubepods-guaranteed"]

  function SliceName(prefix: string, uid: string): string {
    prefix + POD_MARK + ToCgroupID(uid) + SLICE
  }

  function PlainName(uid: string): string {
    "pod" + ToCgroupID(uid)
  }

  /** The two candidate paths for a pod in one directory. */
  function PathsIn(dir: string, prefix: string, uid: string): seq<string> {
    [Join(dir, SliceName(prefix, uid)), Join(dir, PlainName(uid))]
  }

  function QosPaths(top: string, uid: string, n: nat): seq<string>
    requires n <= |QOS_CLASSES|
  {
    if n == 0 then [] else
    var prefix := "kubepods-" + QOS_CLASSES[n - 1];
    QosPaths(top, uid, n - 1) + PathsIn(Join(top, prefix + SLICE), prefix, uid)
  }

  /** The two paths of a pod in one directory, written out. */
  function Pair(dir: string, mark: string, id: string): seq<string> {
    [dir + mark + id + ".slice", dir + "/pod" + id]
  }

  /** All candidates, written out. */
  function EightPaths(id: string): seq<string> {
    var top := "/sys/fs/cgroup/kubepods.slice";
    Pair(top, "/kubepods-pod", id)
      + Pair(top + "/kubepods-besteffort.slice", "/kubepods-besteffort-pod", id)
      + Pair(top + "/kubepods-burstable.slice", "/kubepods-burstable-pod", id)
      + Pair(top + "/kubepods-guaranteed.slice", "/kubepods-guaranteed-pod", id)
  }

  lemma PairIs(dir: string, prefix: string, mark: string, uid: string)
    requires mark == "/" + prefix + "-pod"
    ensures PathsIn(dir, prefix, uid) == Pair(dir, mark, ToCgroupID(uid))
  {
    assert Join(dir, SliceName(prefix, uid)) == dir + mark + ToCgroupID(uid) + ".slice";
    assert Join(dir, PlainName(uid)) == dir + "/pod" + ToCgroupID(uid);
  }

  /** One more class of service, given its name and the names derived from it. */
  lemma QosPairIs(top: string, uid: string, n: nat, prefix: string, slice: string, mark: string)
    requires n < |QOS_CLASSES| && prefix == "kubepods-" + QOS_CLASSES[n]
    requires slice == "/" + prefix + ".slice" && mark == "/" + prefix + "-pod"
    ensures QosPaths(top, uid, n + 1) == QosPaths(top, uid, n) + Pair(top + slice, mark, ToCgroupID(uid))
  {
    hide PathsIn, Pair, ToCgroupID;
    PairIs(top + slice, prefix, mark, uid);
    assert Join(top, prefix + SLICE) == top + slice;
  }

  lemma TopIs()
    ensures Join(CGROUP_FS_ROOT, "kubepods.slice") == "/sys/fs/cgroup/kubepods.slice"
  {
  }

  lemma BesteffortIsFirst(top: string, uid: string)
    ensures QosPaths(top, uid, 1)
         == QosPaths(top, uid, 0) + Pair(top + "/kubepods-besteffort.slice", "/kubepods-besteffort-pod", ToCgroupID(uid))
  {
    hide QosPaths, Pair, ToCgroupID;
    QosPairIs(top, uid, 0, "kubepods-besteffort", "/kubepods-besteffort.slice", "/kubepods-besteffort-pod");
  }

  lemma BurstableIsSecond(top: string, uid: string)
    ensures QosPaths(top, uid, 2)
         == QosPaths(top, uid, 1) + Pair(top + "/kubepods-burstable.slice", "/kubepods-burstable-pod", ToCgroupID(uid))
  {
    hide QosPaths, Pair, ToCgroupID;
    QosPairIs(top, uid, 1, "kubepods-burstable", "/kubepods-burstable.slice", "/kubepods-burstable-pod");
  }

  lemma GuaranteedIsThird(top: string, uid: string)
    ensures QosPaths(top, uid, 3)
         == QosPaths(top, uid, 2) + Pair(top + "/kubepods-guaranteed.slice", "/kubepods-guaranteed-pod", ToCgroupID(uid))
  {
    hide QosPaths, Pair, ToCgroupID;
    QosPairIs(top, uid, 2, "kubepods-guaranteed", "/kubepods-guaranteed.slice", "/kubepods-guaranteed-pod");
  }

  lemma EightCandidates(uid: string)
    ensures PathsIn(Join(CGROUP_FS_ROOT, "kubepods.slice"), "kubepods", uid)
            + QosPaths(Join(CGROUP_FS_ROOT, "kubepods.slice"), uid, |QOS_CLASSES|) == EightPaths(ToCgroupID(uid))
  {
    hide PathsIn, QosPaths, ToCgroupID, Pair, Join;
    TopIs();
    var top := Join(CGROUP_FS_ROOT, "kubepods.slice");
    PairIs(top, "kubepods", "/kubepods-pod", uid);
    NoQosPaths(top, uid);
    BesteffortIsFirst(top, uid);
    BurstableIsSecond(top, uid);
    GuaranteedIsThird(top, uid);
  }

  lemma NoQosPaths(top: string, uid: string)
    ensures QosPaths(top, uid, 0) == []
  {
  }

  /** The paths the resolver probes, in its order. */
  method Candidates(podUID: string) returns (candidates: seq<string>)
    ensures var top := Join(CGROUP_FS_ROOT, "kubepods.slice");
            candidates == PathsIn(top, "kubepods", podUID) + QosPaths(top, podUID, |QOS_CLASSES|)
    ensures candidates == EightPaths(ToCgroupID(podUID))
  {
    EightCandidates(podUID);
    var cgUID := Replace(podUID, '-', '_');
    var top := Join(CGROUP_FS_ROOT, "kubepods.slice");
    candidates := [Join(top, "kubepods-pod" + cgUID + ".slice"), Join(top, "pod" + cgUID)];
    assert SliceName("kubepods", podUID) == "kubepods-pod" + cgUID + ".slice";
    for i := 0 to |QOS_CLASSES|
      invariant candidates == PathsIn(top, "kubepods", podUID) + QosPaths(top, podUID, i)
    {
      var prefix := "kubepods-" + QOS_CLASSES[i];
      var dir := Join(top, prefix + ".slice");
      candidates := candidates + [Join(dir, prefix + "-pod" + cgUID + ".slice"), Join(dir, "pod" + cgUID)];
    }
  }

  lemma BeginsLater(s: string, pattern: string, i: nat)
    requires s != ""
    ensures BeginsAt(s[1..], pattern, i) <==> BeginsAt(s, pattern, i + 1)
  {
    if i + 1 + |pattern| <= |s| {
      assert s[1..][i..i + |pattern|] == s[i + 1..i + 1 + |pattern|];
    }
  }

  /** Find returns the first place where the pattern begins. */
  lemma {:induction false} FindFirst(s: string, pattern: string, i: nat)
    requires BeginsAt(s, pattern, i) && forall j | 0 <= j < i :: !BeginsAt(s, pattern, j)
    ensures Find(s, pattern) == Some(i)
  {
    hide BeginsAt;
    if i > 0 {
      assert s != "" by { LongEnough(s, pattern, i); }
      BeginsLater(s, pattern, i - 1);
      forall j | 0 <= j < i - 1 ensures !BeginsAt(s[1..], pattern, j) {
        BeginsLater(s, pattern, j);
      }
      FindFirst(s[1..], pattern, i - 1);
    }
  }

  lemma LongEnough(s: string, pattern: string, i: nat)
    requires BeginsAt(s, pattern, i)
    ensures i + |pattern| <= |s|
  {
  }

  lemma BeginsWithItsFirst(s: string, pattern: string, i: nat)
    requires BeginsAt(s, pattern, i) && pattern != ""
    ensures pattern[0] in s && forall k | 0 <= k < |pattern| :: s[i + k] == pattern[k]
  {
    forall k | 0 <= k < |pattern| ensures s[i + k] == pattern[k] {
      assert s[i..i + |pattern|][k] == s[i + k];
    }
  }

  lemma {:induction false} FindNothing(s: string, pattern: string)
    requires pattern != "" && pattern[0] !in s
    ensures Find(s, pattern) == None
  {
    assert !BeginsAt(s, pattern, 0) by {
      if BeginsAt(s, pattern, 0) { BeginsWithItsFirst(s, pattern, 0); }
    }
    if s != "" {
      FindNothing(s[1..], pattern);
    }
  }

  lemma {:induction false} AfterLastSlashOf(dir: string, name: string)
    requires '/' !in name
    ensures AfterLastSlash(Join(dir, name)) == name
  {
    var s := Join(dir, name);
    if name != "" {
      var init := name[..|name| - 1];
      assert s[..|s| - 1] == Join(dir, init);
      assert s[|s| - 1] == name[|name| - 1];
      AfterLastSlashOf(dir, init);
      assert name == init + [name[|name| - 1]];
    }
  }

  lemma BaseOf(dir: string, name: string)
    requires '/' !in name && name != ""
    ensures Base(Join(dir, name)) == name
  {
    var s := Join(dir, name);
    assert s[|s| - 1] == name[|name| - 1];
    AfterLastSlashOf(dir, name);
  }

  lemma {:induction false} LastSlash(s: string) returns (i: nat)
    requires '/' in s
    ensures i < |s| && s[i] == '/' && '/' !in s[i + 1..]
  {
    var n := |s| - 1;
    if s[n] == '/' {
      i := n;
    } else {
      assert s == s[..n] + [s[n]];
      i := LastSlash(s[..n]);
      assert s[i + 1..] == s[..n][i + 1..] + [s[n]];
    }
  }

  /** No slice name has the mark before the place where it is put. */
  lemma MarkIsFirst(prefix: string, rest: string)
    requires prefix in SLICE_PREFIXES
    ensures Find(prefix + POD_MARK + rest, POD_MARK) == Some(|prefix|)
  {
    var s := prefix + POD_MARK + rest;
    assert BeginsAt(s, POD_MARK, |prefix|);
    forall j | 0 <= j < |prefix| ensures !BeginsAt(s, POD_MARK, j) {
      NoEarlierMark(prefix, rest, j);
    }
    FindFirst(s, POD_MARK, |prefix|);
  }

  lemma NoEarlierMark(prefix: string, rest: string, j: nat)
    requires prefix in SLICE_PREFIXES && j < |prefix|
    ensures !BeginsAt(prefix + POD_MARK + rest, POD_MARK, j)
  {
    var s := prefix + POD_MARK + rest;
    if BeginsAt(s, POD_MARK, j) {
      BeginsWithItsFirst(s, POD_MARK, j);
      assert POD_MARK[0] == '-' && POD_MARK[1] == 'p' && s[j] == prefix[j];
      DashIsNotTheMark(prefix, rest, j);
    }
  }

  lemma DashIsNotTheMark(prefix: string, rest: string, j: nat)
    requires prefix in SLICE_PREFIXES && j < |prefix| && prefix[j] == '-'
    ensures (prefix + POD_MARK + rest)[j + 1] != 'p'
  {
    assert j == 8 && 9 < |prefix|;
  }

  lemma ReplaceTwice(uid: string)
    ensures ToPodUID(ToCgroupID(uid)) == uid <==> '_' !in uid
  {
    if '_' in uid {
      var i :| 0 <= i < |uid| && uid[i] == '_';
      assert ToPodUID(ToCgroupID(uid))[i] == '-';
    }
  }

  lemma ReplaceKeepsSlashes(uid: string)
    ensures '/' in ToCgroupID(uid) <==> '/' in uid
    ensures '-' !in ToCgroupID(uid)
  {
    var id := ToCgroupID(uid);
    if '/' in uid {
      var i :| 0 <= i < |uid| && uid[i] == '/';
      assert id[i] == '/';
    }
  }

  lemma PlainPathParses(dir: string, prefix: string, uid: string)
    requires prefix in SLICE_PREFIXES && '/' !in uid
    ensures PodIDFromCgroupPath(Join(dir, SliceName(prefix, uid))) == Some(ToCgroupID(uid))
  {
    hide Find, Base, ToCgroupID;
    var id, name := ToCgroupID(uid), SliceName(prefix, uid);
    ReplaceKeepsSlashes(uid);
    assert '/' !in name;
    BaseOf(dir, name);
    assert name == prefix + POD_MARK + (id + SLICE);
    MarkIsFirst(prefix, id + SLICE);
    assert name[|prefix| + |POD_MARK|..] == id + SLICE;
    assert (id + SLICE)[..|id|] == id && (id + SLICE)[|id|..] == SLICE;
  }

  lemma SlashedPathDoesNotParse(dir: string, prefix: string, uid: string)
    requires '/' in uid
    ensures PodIDFromCgroupPath(Join(dir, SliceName(prefix, uid))) == None
  {
    hide Find, Base, ToCgroupID;
    var id := ToCgroupID(uid);
    ReplaceKeepsSlashes(uid);
    var i := LastSlash(id);
    var front, last := prefix + POD_MARK + id[..i], id[i + 1..] + SLICE;
    assert id == id[..i] + "/" + id[i + 1..];
    assert Join(dir, SliceName(prefix, uid)) == Join(Join(dir, front), last);
    BaseOf(Join(dir, front), last);
    assert '-' !in last;
    FindNothing(last, POD_MARK);
  }

  /** Round trip: the slice path built for a pod parses back to the pod's id, after
      undoing the replacement of dashes, exactly when the id has neither an
      underscore nor a slash. */
  lemma SlicePathRoundTrip(dir: string, prefix: string, uid: string)
    requires prefix in SLICE_PREFIXES
    ensures var parsed := PodIDFromCgroupPath(Join(dir, SliceName(prefix, uid)));
            parsed.Some? && ToPodUID(parsed.value) == uid <==> '_' !in uid && '/' !in uid
  {
    hide PodIDFromCgroupPath;
    if '/' in uid {
      SlashedPathDoesNotParse(dir, prefix, uid);
    } else {
      PlainPathParses(dir, prefix, uid);
      ReplaceTwice(uid);
    }
  }

  /** Different pods have different slice names, unless their ids differ only in
      having a dash where the other has an underscore. */
  lemma SliceNamesAreDistinct(prefix: string, uid: string, other: string)
    ensures SliceName(prefix, uid) == SliceName(prefix, other) <==> ToCgroupID(uid) == ToCgroupID(other)
    ensures '_' !in uid && '_' !in other && SliceName(prefix, uid) == SliceName(prefix, other) ==> uid == other
  {
    var n, m := SliceName(prefix, uid), SliceName(prefix, other);
    if n == m {
      var k := |prefix| + |POD_MARK|;
      assert n[k..|n| - |SLICE|] == ToCgroupID(uid);
      assert m[k..|m| - |SLICE|] == ToCgroupID(other);
      ReplaceTwice(uid);
      ReplaceTwice(other);
    }
  }

  lemma {:induction false} TrimmedJoin(dir: string, name: string) returns (n: nat)
    requires name != "" && name[0] != '/'
    ensures 0 < n <= |name| && TrimSlashes(Join(dir, name)) == Join(dir, name[..n])
  {
    var last := |name| - 1;
    assert Join(dir, name)[|Join(dir, name)| - 1] == name[last];
    if name[last] == '/' {
      assert Join(dir, name)[..|Join(dir, name)| - 1] == Join(dir, name[..last]);
      n := TrimmedJoin(dir, name[..last]);
      assert name[..last][..n] == name[..n];
    } else {
      n := |name|;
      assert name[..n] == name;
    }
  }

  lemma {:induction false} AfterLastSlashIsBehind(dir: string, name: string, c: char)
    ensures c in AfterLastSlash(Join(dir, name)) ==> c in name
  {
    if name != "" {
      var last := |name| - 1;
      assert Join(dir, name)[|Join(dir, name)| - 1] == name[last];
      assert Join(dir, name)[..|Join(dir, name)| - 1] == Join(dir, name[..last]);
      assert name == name[..last] + [name[last]];
      AfterLastSlashIsBehind(dir, name[..last], c);
    }
  }

  /** The names of the other layout never parse, not even for an id with slashes. */
  lemma PlainNamesDoNotParse(dir: string, uid: string)
    ensures PodIDFromCgroupPath(Join(dir, PlainName(uid))) == None
  {
    var name := PlainName(uid);
    assert '-' !in name && name[0] == 'p';
    var n := TrimmedJoin(dir, name);
    AfterLastSlashIsBehind(dir, name[..n], '-');
    FindNothing(Base(Join(dir, name)), POD_MARK);
  }

  /** Of the paths the resolver probes, the first of each pair parses back to the pod's
      id, and the second does not parse. */
  lemma CandidatesParse(uid: string)
    requires '/' !in uid
    ensures var paths := EightPaths(ToCgroupID(uid));
            forall k | 0 <= k < 8 ::
              PodIDFromCgroupPath(paths[k]) == if k % 2 == 0 then Some(ToCgroupID(uid)) else None
  {
    hide PodIDFromCgroupPath, ToCgroupID, Pair;
    var top, id := "/sys/fs/cgroup/kubepods.slice", ToCgroupID(uid);
    PairParses(top, "kubepods", "/kubepods-pod", uid);
    PairParses(top + "/kubepods-besteffort.slice", "kubepods-besteffort", "/kubepods-besteffort-pod", uid);
    PairParses(top + "/kubepods-burstable.slice", "kubepods-burstable", "/kubepods-burstable-pod", uid);
    PairParses(top + "/kubepods-guaranteed.slice", "kubepods-guaranteed", "/kubepods-guaranteed-pod", uid);
  }

  lemma PairParses(dir: string, prefix: string, mark: string, uid: string)
    requires '/' !in uid && prefix in SLICE_PREFIXES && mark == "/" + prefix + "-pod"
    ensures var pair := Pair(dir, mark, ToCgroupID(uid));
            && |pair| == 2
            && PodIDFromCgroupPath(pair[0]) == Some(ToCgroupID(uid)) && PodIDFromCgroupPath(pair[1]) == None
  {
    hide PodIDFromCgroupPath, ToCgroupID, SliceName, PlainName, Join, Pair;
    PairIs(dir, prefix, mark, uid);
    PlainPathParses(dir, prefix, uid);
    PlainNamesDoNotParse(dir, uid);
  }

  lemma BaseOfName(name: string)
    requires '/' !in name && name != ""
    ensures Base(name) == name
  {
    AfterLastSlashOfName(name);
    assert name[|name| - 1] != '/';
  }

  lemma {:induction false} AfterLastSlashOfName(name: string)
    requires '/' !in name
    ensures AfterLastSlash(name) == name
  {
    if name != "" {
      AfterLastSlashOfName(name[..|name| - 1]);
      assert name == name[..|name| - 1] + [name[|name| - 1]];
    }
  }

  lemma {:induction false} FindExactly(s: string, pattern: string)
    ensures match Find(s, pattern)
            case Some(i) => BeginsAt(s, pattern, i) && forall j | 0 <= j < i :: !BeginsAt(s, pattern, j)
            case None => forall j: nat :: !BeginsAt(s, pattern, j)
  {
    hide BeginsAt;
    if !BeginsAt(s, pattern, 0) {
      if s == "" {
        forall j: nat ensures !BeginsAt(s, pattern, j) {
          if BeginsAt(s, pattern, j) { LongEnough(s, pattern, j); }
        }
      } else {
        FindExactly(s[1..], pattern);
        forall j: nat ensures BeginsAt(s[1..], pattern, j) <==> BeginsAt(s, pattern, j + 1) {
          BeginsLater(s, pattern, j);
        }
        forall j: nat | 0 < j ensures BeginsAt(s[1..], pattern, j - 1) <==> BeginsAt(s, pattern, j) {
          BeginsLater(s, pattern, j - 1);
        }
      }
    }
  }

  lemma Trims(rest: string)
    ensures var id := TrimSuffix(rest, SLICE);
            rest == id + ".slice" || (rest == id && !(6 <= |id| && id[|id| - 6..] == ".slice"))
  {
  }

  /** Which names parse, and to what: those with "-pod" in them, to what follows its first
      occurrence, without ".slice" at the end. */
  lemma ParsesExactly(name: string)
    requires '/' !in name && name != ""
    ensures match PodIDFromCgroupPath(name)
            case None => forall i: nat :: !BeginsAt(name, "-pod", i)
            case Some(id) => exists i: nat ::
              && BeginsAt(name, "-pod", i) && (forall j | 0 <= j < i :: !BeginsAt(name, "-pod", j))
              && (name[i + 4..] == id + ".slice"
                  || (name[i + 4..] == id && !(6 <= |id| && id[|id| - 6..] == ".slice")))
  {
    hide Find, Base, BeginsAt, TrimSuffix;
    BaseOfName(name);
    FindExactly(name, "-pod");
    if i :| Find(name, POD_MARK) == Some(i) {
      LongEnough(name, "-pod", i);
      Trims(name[i + 4..]);
    }
  }

  /** A directory tree; a directory may be unreadable. */
  datatype Entry =
    | File(name: string)
    | Dir(name: string, readable: bool, children: seq<Entry>)

  predicate IsPodName(name: string) {
    PodIDFromCgroupPath(name).Some?
  }

  /** A place in the tree, as the positions to descend to from the root. */
  type Address = seq<nat>

  /** The address leads, through readable directories, to a directory with a pod
      name, and no directory on the way has one. */
  predicate IsPodDir(dir: Entry, a: Address)
    decreases a
  {
    && a != [] && dir.Dir? && dir.readable && a[0] < |dir.children|
    && var child := dir.children[a[0]];
       child.Dir? && (if IsPodName(child.name) then |a| == 1 else IsPodDir(child, a[1..]))
  }

  /** The path of an address, where it leads anywhere. */
  function PathAt(dir: Entry, path: string, a: Address): string
    decreases a
  {
    if a == [] || !dir.Dir? || a[0] >= |dir.children| then path
    else PathAt(dir.children[a[0]], Join(path, dir.children[a[0]].name), a[1..])
  }

  /** What is at an address, where it leads anywhere. */
  function EntryAt(dir: Entry, a: Address): Entry
    decreases a
  {
    if a == [] || !dir.Dir? || a[0] >= |dir.children| then dir else EntryAt(dir.children[a[0]], a[1..])
  }

  lemma {:induction false} PathGoesDown(dir: Entry, root: string, a: Address)
    requires IsPodDir(dir, a)
    ensures PathAt(dir, root, a) == Join(PathAt(dir, root, a[..|a| - 1]), EntryAt(dir, a).name)
    ensures EntryAt(dir, a).Dir? && IsPodName(EntryAt(dir, a).name)
    ensures |root| < |PathAt(dir, root, a)| && PathAt(dir, root, a)[..|root| + 1] == root + "/"
    decreases a
  {
    hide IsPodName;
    var child, rest := dir.children[a[0]], a[1..];
    var path := Join(root, child.name);
    if |a| == 1 {
      assert rest == [] && a[..0] == [];
      assert PathAt(dir, root, a) == PathAt(child, path, []) == path;
    } else {
      PathGoesDown(child, path, rest);
      assert a[..|a| - 1][1..] == rest[..|rest| - 1];
      assert path[..|root| + 1] == root + "/";
      assert PathAt(dir, root, a)[..|root| + 1] == PathAt(child, path, rest)[..|path| + 1][..|root| + 1];
    }
  }

  /** Each reported path lies under the root, is that of a directory in its parent's, and
      has the name of that directory, a pod name, as its last element. */
  lemma FoundPathsAreTheirs(dir: Entry, root: string, j: nat)
    requires j < |PodDirs(dir)|
    ensures var a := PodDirs(dir)[j];
            var path, found := PathsAt(dir, root, PodDirs(dir))[j], EntryAt(dir, a);
            && a != [] && found.Dir? && IsPodName(found.name)
            && |root| < |path| && path[..|root| + 1] == root + "/"
            && path == PathAt(dir, root, a[..|a| - 1]) + "/" + found.name
            && ('/' !in found.name && found.name != "" ==> Base(path) == found.name)
  {
    hide IsPodName, PodDirs, Base;
    var a := PodDirs(dir)[j];
    PodDirsAreExact(dir);
    assert a in PodDirs(dir);
    PathGoesDown(dir, root, a);
    var found := EntryAt(dir, a);
    if '/' !in found.name && found.name != "" {
      BaseOf(PathAt(dir, root, a[..|a| - 1]), found.name);
    }
  }

  function Below(i: nat, addresses: seq<Address>): seq<Address> {
    seq(|addresses|, j requires 0 <= j < |addresses| => [i] + addresses[j])
  }

  /** The addresses of the pod directories, in the order of the listing. */
  function PodDirs(dir: Entry): seq<Address>
    decreases dir, 1, 0
  {
    if dir.Dir? && dir.readable then PodDirsAmong(dir, |dir.children|) else []
  }

  function PodDirsAmong(dir: Entry, n: nat): seq<Address>
    requires dir.Dir? && n <= |dir.children|
    decreases dir, 0, n
  {
    if n == 0 then [] else
    var child := dir.children[n - 1];
    PodDirsAmong(dir, n - 1)
      + (if child.File? then [] else if IsPodName(child.name) then [[n - 1]] else Below(n - 1, PodDirs(child)))
  }

  function PathsAt(dir: Entry, path: string, addresses: seq<Address>): seq<string> {
    seq(|addresses|, j requires 0 <= j < |addresses| => PathAt(dir, path, addresses[j]))
  }

  /** The search: it descends only into directories without a pod name. */
  method FindPodCgroupDirs(dir: Entry, root: string) returns (result: seq<string>)
    ensures result == PathsAt(dir, root, PodDirs(dir))
    decreases dir
  {
    hide IsPodName, Join;
    result := [];
    if dir.File? || !dir.readable {
      return;
    }
    for i := 0 to |dir.children|
      invariant result == PathsAt(dir, root, PodDirsAmong(dir, i))
    {
      var child := dir.children[i];
      ghost var before := PodDirsAmong(dir, i);
      if child.Dir? {
        var path := Join(root, child.name);
        if IsPodName(child.name) {
          result := result + [path];
          assert PathAt(dir, root, [i]) == PathAt(child, path, []) == path;
        } else {
          var deeper := FindPodCgroupDirs(child, path);
          result := result + deeper;
          PathsBelow(dir, root, i, PodDirs(child));
        }
      }
      PathsOfBoth(dir, root, before, PodDirsAmong(dir, i + 1)[|before|..]);
      assert PodDirsAmong(dir, i + 1) == before + PodDirsAmong(dir, i + 1)[|before|..];
    }
  }

  lemma PathsOfBoth(dir: Entry, root: string, some: seq<Address>, more: seq<Address>)
    ensures PathsAt(dir, root, some + more) == PathsAt(dir, root, some) + PathsAt(dir, root, more)
  {
  }

  lemma PathsBelow(dir: Entry, root: string, i: nat, addresses: seq<Address>)
    requires dir.Dir? && i < |dir.children|
    ensures PathsAt(dir, root, Below(i, addresses))
         == PathsAt(dir.children[i], Join(root, dir.children[i].name), addresses)
  {
    forall j | 0 <= j < |addresses|
      ensures PathAt(dir, root, [i] + addresses[j])
           == PathAt(dir.children[i], Join(root, dir.children[i].name), addresses[j])
    {
      assert ([i] + addresses[j])[1..] == addresses[j];
    }
  }

  /** The list holds the addresses of pod directories below n, each once. */
  ghost predicate Lists(addresses: seq<Address>, dir: Entry, lo: nat, hi: nat) {
    && (forall a :: a in addresses <==> IsPodDir(dir, a) && lo <= a[0] < hi)
    && (forall i, j | 0 <= i < j < |addresses| :: addresses[i] != addresses[j])
  }

  lemma ListsJoin(some: seq<Address>, more: seq<Address>, dir: Entry, lo: nat, mid: nat, hi: nat)
    requires lo <= mid <= hi && Lists(some, dir, lo, mid) && Lists(more, dir, mid, hi)
    ensures Lists(some + more, dir, lo, hi)
  {
    hide IsPodDir;
    var all := some + more;
    forall i, j | 0 <= i < j < |all| ensures all[i] != all[j] {
      if i < |some| <= j {
        assert all[i] in some && all[j] in more;
      }
    }
  }

  /** Discovery: the search reports each pod directory that has no pod directory
      between it and the root, once, and reports nothing else. */
  lemma {:induction false} PodDirsAreExact(dir: Entry)
    ensures forall a :: a in PodDirs(dir) <==> IsPodDir(dir, a)
    ensures forall i, j | 0 <= i < j < |PodDirs(dir)| :: PodDirs(dir)[i] != PodDirs(dir)[j]
    decreases dir, 1, 0
  {
    if dir.Dir? && dir.readable {
      PodDirsAmongAreExact(dir, |dir.children|);
    }
  }

  lemma {:induction false} PodDirsAmongAreExact(dir: Entry, n: nat)
    requires dir.Dir? && dir.readable && n <= |dir.children|
    ensures Lists(PodDirsAmong(dir, n), dir, 0, n)
    decreases dir, 0, n
  {
    hide Lists, IsPodName, IsPodDir;
    if n == 0 {
      NoneListed(dir);
    } else {
      var child := dir.children[n - 1];
      PodDirsAmongAreExact(dir, n - 1);
      if child.File? {
        OneChildListed(dir, n, []);
        ListsJoin(PodDirsAmong(dir, n - 1), [], dir, 0, n - 1, n);
      } else if IsPodName(child.name) {
        OneChildListed(dir, n, [[n - 1]]);
        ListsJoin(PodDirsAmong(dir, n - 1), [[n - 1]], dir, 0, n - 1, n);
      } else {
        PodDirsAreExact(child);
        DeeperListed(dir, n, PodDirs(child));
        ListsJoin(PodDirsAmong(dir, n - 1), Below(n - 1, PodDirs(child)), dir, 0, n - 1, n);
      }
    }
  }

  lemma NoneListed(dir: Entry)
    ensures Lists([], dir, 0, 0)
  {
  }

  lemma OneChildListed(dir: Entry, n: nat, addresses: seq<Address>)
    requires dir.Dir? && dir.readable && 0 < n <= |dir.children|
    requires var child := dir.children[n - 1];
             if child.File? then addresses == [] else IsPodName(child.name) && addresses == [[n - 1]]
    ensures Lists(addresses, dir, n - 1, n)
  {
    hide IsPodName;
    forall a ensures a in addresses <==> IsPodDir(dir, a) && n - 1 <= a[0] < n {
      if IsPodDir(dir, a) && n - 1 <= a[0] < n {
        assert a == [n - 1];
      }
    }
  }

  lemma DeeperListed(dir: Entry, n: nat, deeper: seq<Address>)
    requires dir.Dir? && dir.readable && 0 < n <= |dir.children|
    requires var child := dir.children[n - 1];
             child.Dir? && !IsPodName(child.name)
             && (forall a :: a in deeper <==> IsPodDir(child, a))
             && (forall i, j | 0 <= i < j < |deeper| :: deeper[i] != deeper[j])
    ensures Lists(Below(n - 1, deeper), dir, n - 1, n)
  {
    hide IsPodName;
    var all := Below(n - 1, deeper);
    forall a ensures a in all <==> IsPodDir(dir, a) && n - 1 <= a[0] < n {
      if a in all {
        var j :| 0 <= j < |deeper| && a == all[j];
        assert a[1..] == deeper[j] && deeper[j] in deeper;
      }
      if IsPodDir(dir, a) && n - 1 <= a[0] < n {
        assert IsPodDir(dir.children[n - 1], a[1..]) && a[1..] in deeper;
        var j :| 0 <= j < |deeper| && deeper[j] == a[1..];
        assert all[j] == [n - 1] + a[1..] == a;
      }
    }
    forall i, j | 0 <= i < j < |all| ensures all[i] != all[j] {
      assert all[i][1..] == deeper[i] && all[j][1..] == deeper[j];
    }
  }
}
