/** The automatic capture directory: oldest-first rotation, the bounded writer, and the quota
    over saves in which any step can fail, stop or crash. */
module Store {

  datatype File = File(name: string, size: nat, modified: nat)

  /** `maxFile` bounds one capture; it never exceeds the whole budget. */
  datatype Limits = Limits(maxFiles: nat, maxStorage: nat, maxFile: nat)

  predicate Sensible(l: Limits) {
    l.maxFiles >= 1 && l.maxFile <= l.maxStorage
  }

  function Total(fs: seq<File>): nat {
    if |fs| == 0 then 0 else fs[0].size + Total(fs[1..])
  }

  function Files(fs: seq<File>): set<File> {
    set f | f in fs
  }

  predicate Distinct(fs: seq<File>) {
    forall i, j :: 0 <= i < j < |fs| ==> fs[i].name != fs[j].name
  }

  predicate NameLess(a: string, b: string) {
    |b| > 0 && (|a| == 0 || a[0] < b[0] || (a[0] == b[0] && NameLess(a[1..], b[1..])))
  }

  predicate Older(a: File, b: File) {
    a.modified < b.modified || (a.modified == b.modified && NameLess(a.name, b.name))
  }

  predicate OldestFirst(fs: seq<File>) {
    forall i, j :: 0 <= i < j < |fs| ==> Older(fs[i], fs[j])
  }

  /** A scan of the directory: every managed file once, oldest first. */
  predicate Lists(fs: seq<File>, content: set<File>) {
    Distinct(fs) && OldestFirst(fs) && Files(fs) == content
  }

  /** The files and bytes there are, with those about to count, break a limit. */
  predicate Exceeds(count: nat, total: nat, added: nat, incoming: nat, l: Limits) {
    count > l.maxFiles - incoming || total > l.maxStorage || added > l.maxStorage - total
  }

  predicate Over(fs: seq<File>, added: nat, incoming: nat, l: Limits) {
    Exceeds(|fs|, Total(fs), added, incoming, l)
  }

  /** These files and what is about to be added keep both limits. */
  predicate Fits(fs: seq<File>, added: nat, incoming: nat, l: Limits) {
    |fs| + incoming <= l.maxFiles && Total(fs) + added <= l.maxStorage
  }

  /** How many of the oldest files must go. */
  function Needed(fs: seq<File>, added: nat, incoming: nat, l: Limits): (n: nat)
    ensures n <= |fs|
  {
    if |fs| == 0 || !Over(fs, added, incoming, l) then 0 else 1 + Needed(fs[1..], added, incoming, l)
  }

  /** The shortest oldest-first prefix whose removal meets both limits: it always exists, and
      no shorter one does. */
  lemma {:induction false} NeededIsShortest(fs: seq<File>, added: nat, incoming: nat, l: Limits)
    requires incoming <= l.maxFiles && added <= l.maxStorage
    ensures var n := Needed(fs, added, incoming, l);
            n <= |fs| && Fits(fs[n..], added, incoming, l) && !Over(fs[n..], added, incoming, l) &&
            forall m :: 0 <= m < n ==> !Fits(fs[m..], added, incoming, l) && Over(fs[m..], added, incoming, l)
  {
    if |fs| == 0 || !Over(fs, added, incoming, l) {
      assert fs[0..] == fs;
    } else {
      NeededIsShortest(fs[1..], added, incoming, l);
      var n := Needed(fs[1..], added, incoming, l);
      assert fs[1..][n..] == fs[n + 1..];
      forall m | 0 <= m < n + 1 ensures Over(fs[m..], added, incoming, l) {
        if m == 0 {
          assert fs[0..] == fs;
        } else {
          assert fs[1..][m - 1..] == fs[m..];
        }
      }
    }
  }

  /** `a` comes before `b` byte by byte: after a common start it ends, or has the smaller byte. */
  predicate Precedes(a: string, b: string) {
    exists k :: 0 <= k <= |a| && k < |b| && a[..k] == b[..k] && (k == |a| || a[k] < b[k])
  }

  lemma {:induction false} NamesOrdered(a: string, b: string)
    ensures NameLess(a, b) <==> Precedes(a, b)
    decreases |a|
  {
    if |a| > 0 && |b| > 0 && a[0] == b[0] {
      NamesOrdered(a[1..], b[1..]);
      if Precedes(a, b) {
        var k :| 0 <= k <= |a| && k < |b| && a[..k] == b[..k] && (k == |a| || a[k] < b[k]);
        assert a[1..][..k - 1] == a[..k][1..] == b[..k][1..] == b[1..][..k - 1];
      }
      if Precedes(a[1..], b[1..]) {
        var k :| 0 <= k <= |a| - 1 && k < |b| - 1 && a[1..][..k] == b[1..][..k] &&
                 (k == |a| - 1 || a[1..][k] < b[1..][k]);
        assert a[..k + 1] == [a[0]] + a[1..][..k] && b[..k + 1] == [b[0]] + b[1..][..k];
        assert Precedes(a, b);
      }
    } else if |b| > 0 {
      assert a[..0] == b[..0];
    }
  }

  /** A file that rotation removes was modified no later than any file of the scan that stays, and
      among files of one time the name decides. */
  lemma RemovedAreOldest(fs: seq<File>, content: set<File>, k: nat, f: File, g: File)
    requires Lists(fs, content) && k <= |fs| && f in Files(fs[..k]) && g in Files(fs[k..])
    ensures f.modified < g.modified || (f.modified == g.modified && Precedes(f.name, g.name))
  {
    var i :| 0 <= i < k && fs[i] == f;
    var j :| k <= j < |fs| && fs[j] == g;
    assert Older(fs[i], fs[j]);
    NamesOrdered(f.name, g.name);
  }

  // ----- rotation -----

  /** What happens when rotation reaches a file. A `Gone` file is removed by someone else just before
      rotation looks at it, a `Raced` one after that and just before rotation removes it. */
  datatype Fate = Removed | Gone | Raced | StatError | Changed | RemoveError

  /** Rotation gets past a file that it removes or finds gone. */
  predicate Goes(content: set<File>, file: File, fate: Fate) {
    fate.Removed? || fate.Gone? || fate.Raced? || (file !in content && !fate.StatError?)
  }

  /** Rotation asked for the file's removal, so the directory has to be synced. */
  predicate Asked(content: set<File>, file: File, fate: Fate) {
    (fate.Removed? || fate.Raced?) && file in content
  }

  /** Syncing the directory is due and fails. */
  predicate Unsynced(content: set<File>, files: seq<File>, fates: seq<Fate>, k: nat, syncFails: bool)
    requires k <= |files| == |fates|
  {
    syncFails && exists i :: 0 <= i < k && Asked(content, files[i], fates[i])
  }

  class Directory {
    var content: set<File>

    constructor (content: set<File>)
      ensures this.content == content
    {
      this.content := content;
    }
  }

  /** Rotation stops at the first file that cannot be removed and otherwise removes exactly the
      shortest sufficient prefix; it never runs out of files. It succeeds when it got that far and
      the directory, if a removal was asked for, could be synced. `added` and `incoming` count a
      capture that is not in `files`, so that capture stays. */
  method Rotate(dir: Directory, files: seq<File>, total: nat, added: nat, incoming: nat, l: Limits,
                fates: seq<Fate>, syncFails: bool)
    returns (rest: seq<File>, left: nat, ok: bool)
    requires total == Total(files) && |fates| == |files| && Distinct(files)
    requires incoming <= l.maxFiles && added <= l.maxStorage
    modifies dir
    ensures |rest| <= |files| && rest == files[|files| - |rest|..] && left == Total(rest)
    ensures var k := |files| - |rest|;
            k <= Needed(files, added, incoming, l) && dir.content == old(dir.content) - Files(files[..k]) &&
            (forall i :: 0 <= i < k ==> Goes(old(dir.content), files[i], fates[i])) &&
            (k < Needed(files, added, incoming, l) ==> !Goes(old(dir.content), files[k], fates[k])) &&
            (ok <==> k == Needed(files, added, incoming, l) && !Unsynced(old(dir.content), files, fates, k, syncFails))
  {
    hide Needed, Total, Over, Files;
    NeededIsShortest(files, added, incoming, l);
    ghost var n := Needed(files, added, incoming, l);
    var unsynced, k := false, 0;
    left, ok := total, true;
    NoneTaken(files);
    while ok && Exceeds(|files| - k, left, added, incoming, l)
      invariant k <= n && left == Total(files[k..])
      invariant dir.content == old(dir.content) - Files(files[..k])
      invariant forall i :: 0 <= i < k ==> Goes(old(dir.content), files[i], fates[i])
      invariant unsynced <==> exists i :: 0 <= i < k && Asked(old(dir.content), files[i], fates[i])
      invariant !ok ==> k < n && !Goes(old(dir.content), files[k], fates[k])
      decreases |files| - k, ok
    {
      OverAt(files, k, added, incoming, l);
      TakeOldest(files, k);
      NotTaken(files, k);
      var removed;
      ok, removed := RemoveOldest(dir, files[k], fates[k]);
      if ok {
        unsynced := unsynced || removed;
        left := left - files[k].size;
        k := k + 1;
      }
    }
    OverAt(files, k, added, incoming, l);
    rest := files[k..];
    if unsynced && syncFails {
      ok := false;
    }
  }

  /** A file that is gone counts as removed; one that changed or resists stops the rotation. */
  method RemoveOldest(dir: Directory, file: File, fate: Fate) returns (ok: bool, removed: bool)
    modifies dir
    ensures ok == Goes(old(dir.content), file, fate)
    ensures dir.content == if ok then old(dir.content) - {file} else old(dir.content)
    ensures removed <==> Asked(old(dir.content), file, fate)
  {
    if fate.StatError? {
      return false, false;
    }
    if file !in dir.content {
      return true, false;
    }
    if fate.Changed? || fate.RemoveError? {
      return false, false;
    }
    dir.content := dir.content - {file};
    return true, !fate.Gone?;
  }

  lemma NotTaken(files: seq<File>, k: nat)
    requires k < |files| && Distinct(files)
    ensures files[k] !in Files(files[..k])
  {
  }

  lemma NoneTaken(files: seq<File>)
    ensures Files(files[..0]) == {} && files[0..] == files
  {
  }

  lemma OverAt(files: seq<File>, k: nat, added: nat, incoming: nat, l: Limits)
    requires k <= Needed(files, added, incoming, l) && incoming <= l.maxFiles && added <= l.maxStorage
    ensures Exceeds(|files| - k, Total(files[k..]), added, incoming, l) <==> k < Needed(files, added, incoming, l)
  {
    NeededIsShortest(files, added, incoming, l);
  }

  lemma TakeOldest(files: seq<File>, k: nat)
    requires k < |files|
    ensures Total(files[k..]) == files[k].size + Total(files[k + 1..])
    ensures Files(files[..k + 1]) == Files(files[..k]) + {files[k]}
  {
    assert files[k..][1..] == files[k + 1..];
    assert files[..k + 1] == files[..k] + [files[k]];
  }

  // ----- publication and repair -----

  /** A staged capture that was not linked, or was linked under its new name; `confirmed` tells
      that syncing the directory after the link succeeded. */
  datatype Publication = NotPublished | Linked(file: File, confirmed: bool)

  datatype SaveResult = Saved | Unrotated | Unpublished

  /** Repairing an exceeded quota first removes nothing that trimming would have kept. */
  lemma {:induction false} RepairThenTrim(fs: seq<File>, added: nat, incoming: nat, l: Limits)
    ensures var a := Needed(fs, 0, 0, l);
            Needed(fs, added, incoming, l) == a + Needed(fs[a..], added, incoming, l)
  {
    if |fs| == 0 || !Over(fs, 0, 0, l) {
      assert fs[0..] == fs;
    } else {
      RepairThenTrim(fs[1..], added, incoming, l);
      var a := Needed(fs[1..], 0, 0, l);
      assert fs[1..][a..] == fs[a + 1..];
    }
  }

  method SumSizes(fs: seq<File>) returns (total: nat)
    ensures total == Total(fs)
  {
    total := 0;
    assert fs[0..] == fs;
    for i := 0 to |fs|
      invariant total + Total(fs[i..]) == Total(fs)
    {
      TakeOldest(fs, i);
      total := total + fs[i].size;
    }
  }

  lemma NeededNone(fs: seq<File>, l: Limits)
    requires !Exceeds(|fs|, Total(fs), 0, 0, l)
    ensures Needed(fs, 0, 0, l) == 0
  {
  }

  lemma Remaining(fs: seq<File>, k: nat)
    requires k <= |fs| && Distinct(fs)
    ensures Files(fs) - Files(fs[..k]) == Files(fs[k..]) && Distinct(fs[k..])
  {
    assert fs == fs[..k] + fs[k..];
  }

  // ----- the bounded writer -----

  const MIN_FREE: nat := 64 * 1024 * 1024

  /** Counts what reaches the staged file. */
  class StorageWriter {
    const maxFile: nat
    var written: nat

    constructor (maxFile: nat)
      ensures this.maxFile == maxFile && written == 0
    {
      this.maxFile, written := maxFile, 0;
    }

    /** `free` is the space left in the directory and `taken` what the file accepted. */
    method Write(n: nat, cancelled: bool, free: nat, taken: nat) returns (ok: bool)
      requires written <= maxFile && taken <= n
      modifies this
      ensures written <= maxFile
      ensures ok <==> !cancelled && old(written) + n <= maxFile && free >= 64 * 1024 * 1024 + n
      ensures written == if ok then old(written) + taken else old(written)
    {
      if cancelled || n > maxFile - written || free < MIN_FREE + n {
        return false;
      }
      written := written + taken;
      return true;
    }
  }

  // ----- sizes of sets -----

  ghost function SetTotal(s: set<File>): nat {
    if s == {} then 0 else var f :| f in s; f.size + SetTotal(s - {f})
  }

  lemma {:induction false} SetTotalRemove(s: set<File>, f: File)
    requires f in s
    ensures SetTotal(s) == f.size + SetTotal(s - {f})
    decreases |s|
  {
    var g :| g in s && SetTotal(s) == g.size + SetTotal(s - {g});
    if g != f {
      SetTotalRemove(s - {g}, f);
      SetTotalRemove(s - {f}, g);
      assert s - {g} - {f} == s - {f} - {g};
    }
  }

  lemma {:induction false} SetTotalSubset(a: set<File>, b: set<File>)
    requires a <= b
    ensures SetTotal(a) <= SetTotal(b) && |a| <= |b|
    decreases |b|
  {
    if a != b {
      var f :| f in b && f !in a;
      SetTotalRemove(b, f);
      SetTotalSubset(a, b - {f});
    }
  }

  lemma {:induction false} ListedTotal(fs: seq<File>)
    requires Distinct(fs)
    ensures SetTotal(Files(fs)) == Total(fs) && |Files(fs)| == |fs|
  {
    if |fs| == 0 {
      assert Files(fs) == {};
    } else {
      ListedTotal(fs[1..]);
      SetTotalRemove(Files(fs), fs[0]);
      assert fs[0] !in Files(fs[1..]);
      assert Files(fs) - {fs[0]} == Files(fs[1..]);
      assert Files(fs) == Files(fs[1..]) + {fs[0]};
    }
  }

  // ----- saves, failures and crashes -----

  /** Where the one process holding the directory lock is. `rest` is what remains of its scan. */
  datatype Phase =
    | Off
    | Repairing(rest: seq<File>)             // the quota is already exceeded
    | Ready(rest: seq<File>)                 // staging the replacement
    | Trimming(rest: seq<File>, latest: File) // published; rotating

  datatype State = State(content: set<File>, phase: Phase)

  datatype Step =
    | Begin(listing: seq<File>)
    | Oldest            // the oldest file of the scan is removed, or found gone
    | Repaired
    | Publish(file: File)
    | Finish
    | Stop              // an error or a crash, at any point
    | Vanish(file: File) // someone else removes a capture

  predicate Enabled(s: State, step: Step, l: Limits) {
    match step
    case Begin(listing) => s.phase.Off? && Lists(listing, s.content)
    case Oldest =>
      |Rest(s.phase)| > 0 &&
      ((s.phase.Repairing? && Over(s.phase.rest, 0, 0, l)) ||
       (s.phase.Trimming? && Over(s.phase.rest, s.phase.latest.size, 1, l)))
    case Repaired => s.phase.Repairing? && !Over(s.phase.rest, 0, 0, l)
    case Publish(f) =>
      s.phase.Ready? && f.size <= l.maxFile &&
      (forall g :: g in s.content ==> g.name != f.name) && forall g :: g in s.phase.rest ==> g.name != f.name
    case Finish => s.phase.Trimming? && !Over(s.phase.rest, s.phase.latest.size, 1, l)
    case Stop => true
    case Vanish(_) => true
  }

  function Rest(p: Phase): seq<File> {
    if p.Off? then [] else p.rest
  }

  function Apply(s: State, step: Step, l: Limits): State
    requires Enabled(s, step, l)
  {
    match step
    case Begin(listing) => s.(phase := if Over(listing, 0, 0, l) then Repairing(listing) else Ready(listing))
    case Oldest =>
      State(s.content - {s.phase.rest[0]},
            if s.phase.Repairing? then Repairing(s.phase.rest[1..])
            else Trimming(s.phase.rest[1..], s.phase.latest))
    case Repaired => s.(phase := Ready(s.phase.rest))
    case Publish(f) => State(s.content + {f}, Trimming(s.phase.rest, f))
    case Finish => s.(phase := Off)
    case Stop => s.(phase := Off)
    case Vanish(f) => s.(content := s.content - {f})
  }

  ghost predicate AtMost(content: set<File>, files: nat, bytes: nat) {
    |content| <= files && SetTotal(content) <= bytes
  }

  /** One capture more than the quota. */
  ghost predicate Bounded(s: State, l: Limits) {
    AtMost(s.content, l.maxFiles + 1, l.maxStorage + l.maxFile)
  }

  /** The content is what is left of the scan and, once published, the new capture. */
  ghost predicate Tracks(s: State, l: Limits) {
    match s.phase
    case Off => true
    case Repairing(rest) => Distinct(rest) && s.content <= Files(rest)
    case Ready(rest) => Distinct(rest) && s.content <= Files(rest) && !Over(rest, 0, 0, l)
    case Trimming(rest, f) =>
      Distinct(rest) && s.content <= Files(rest) + {f} && f.size <= l.maxFile &&
      forall g :: g in rest ==> g.name != f.name
  }

  ghost predicate Inv(s: State, l: Limits) {
    Bounded(s, l) && Tracks(s, l)
  }

  lemma TailTracks(rest: seq<File>, content: set<File>, extra: set<File>)
    requires |rest| > 0 && Distinct(rest) && content <= Files(rest) + extra
    ensures Distinct(rest[1..]) && content - {rest[0]} <= Files(rest[1..]) + extra
    ensures content <= Files(rest) ==> content - {rest[0]} <= Files(rest[1..])
    ensures forall g :: g in rest[1..] ==> g in rest
  {
    assert rest == [rest[0]] + rest[1..];
  }

  lemma FewerBounded(s: State, content: set<File>, l: Limits)
    requires Bounded(s, l) && content <= s.content
    ensures AtMost(content, l.maxFiles + 1, l.maxStorage + l.maxFile)
  {
    SetTotalSubset(content, s.content);
  }

  /** Publication adds one capture to a directory that is within quota. */
  lemma PublishBounded(content: set<File>, rest: seq<File>, f: File, l: Limits)
    requires Distinct(rest) && content <= Files(rest) && !Over(rest, 0, 0, l) && f.size <= l.maxFile && f !in content
    ensures AtMost(content + {f}, l.maxFiles + 1, l.maxStorage + l.maxFile)
  {
    ListedTotal(rest);
    SetTotalSubset(content, Files(rest));
    SetTotalRemove(content + {f}, f);
    assert content + {f} - {f} == content;
  }

  lemma OldestHolds(s: State, l: Limits)
    requires Inv(s, l) && Enabled(s, Oldest, l)
    ensures Inv(Apply(s, Oldest, l), l)
  {
    hide AtMost, Tracks, Over, Lists;
    FewerBounded(s, s.content - {s.phase.rest[0]}, l);
    OldestTracks(s, l);
  }

  lemma OldestTracks(s: State, l: Limits)
    requires Tracks(s, l) && Enabled(s, Oldest, l)
    ensures Tracks(Apply(s, Oldest, l), l)
  {
    hide Over, Distinct, Files, Lists, NameLess;
    match s.phase
    case Repairing(rest) =>
      TailTracks(rest, s.content, {});
      assert Apply(s, Oldest, l) == State(s.content - {rest[0]}, Repairing(rest[1..]));
    case Trimming(rest, f) =>
      TailTracks(rest, s.content, {f});
      assert Apply(s, Oldest, l) == State(s.content - {rest[0]}, Trimming(rest[1..], f));
    case _ =>
  }

  lemma PublishHolds(s: State, f: File, l: Limits)
    requires Inv(s, l) && Enabled(s, Publish(f), l)
    ensures Inv(Apply(s, Publish(f), l), l)
  {
    hide AtMost, Over, Distinct;
    PublishBounded(s.content, s.phase.rest, f, l);
  }

  lemma VanishHolds(s: State, f: File, l: Limits)
    requires Inv(s, l)
    ensures Inv(s.(content := s.content - {f}), l)
  {
    hide AtMost, Over, Distinct, Files;
    FewerBounded(s, s.content - {f}, l);
  }

  lemma StepHolds(s: State, step: Step, l: Limits)
    requires Inv(s, l) && Enabled(s, step, l)
    ensures Inv(Apply(s, step, l), l)
  {
    hide AtMost, Over, OldestFirst, Distinct, Files;
    match step
    case Oldest => OldestHolds(s, l);
    case Publish(f) => PublishHolds(s, f, l);
    case Vanish(f) => VanishHolds(s, f, l);
    case _ =>
  }

  predicate Possible(s: State, steps: seq<Step>, l: Limits)
    decreases |steps|
  {
    |steps| == 0 || (Enabled(s, steps[0], l) && Possible(Apply(s, steps[0], l), steps[1..], l))
  }

  function After(s: State, steps: seq<Step>, l: Limits): State
    requires Possible(s, steps, l)
    decreases |steps|
  {
    if |steps| == 0 then s else After(Apply(s, steps[0], l), steps[1..], l)
  }

  lemma {:induction false} RunHolds(s: State, steps: seq<Step>, l: Limits)
    requires Inv(s, l) && Possible(s, steps, l)
    ensures Inv(After(s, steps, l), l)
    decreases |steps|
  {
    hide Inv, Apply;
    if |steps| > 0 {
      StepHolds(s, steps[0], l);
      RunHolds(Apply(s, steps[0], l), steps[1..], l);
    }
  }

  /** Over any sequence of saves, failures at any step and crashes between them, starting within
      one capture of the quota, the directory never holds more than one file or one capture
      beyond it. */
  lemma QuotaOverRuns(content: set<File>, steps: seq<Step>, l: Limits)
    requires AtMost(content, l.maxFiles + 1, l.maxStorage + l.maxFile) && Possible(State(content, Off), steps, l)
    ensures AtMost(After(State(content, Off), steps, l).content, l.maxFiles + 1, l.maxStorage + l.maxFile)
  {
    RunHolds(State(content, Off), steps, l);
  }

  /** A save that completes ends within both limits, whatever came before. */
  lemma SavedWithinQuota(content: set<File>, steps: seq<Step>, l: Limits)
    requires Sensible(l) && AtMost(content, l.maxFiles + 1, l.maxStorage + l.maxFile)
    requires Possible(State(content, Off), steps, l) && Enabled(After(State(content, Off), steps, l), Finish, l)
    ensures AtMost(After(State(content, Off), steps, l).content, l.maxFiles, l.maxStorage)
  {
    RunHolds(State(content, Off), steps, l);
    TrimmedWithinQuota(After(State(content, Off), steps, l), l);
  }

  lemma TrimmedWithinQuota(s: State, l: Limits)
    requires Sensible(l) && Tracks(s, l) && Enabled(s, Finish, l)
    ensures AtMost(s.content, l.maxFiles, l.maxStorage)
  {
    var rest, f := s.phase.rest, s.phase.latest;
    ListedTotal(rest);
    var all := Files(rest) + {f};
    assert f !in Files(rest);
    SetTotalRemove(all, f);
    assert all - {f} == Files(rest);
    SetTotalSubset(s.content, all);
  }

  /** Rotation never gets stuck and never removes what was just published: until both limits
      hold there is an older file to remove, and removing it leaves the new capture. */
  lemma RotationProceeds(s: State, l: Limits)
    requires Sensible(l) && Tracks(s, l) && (s.phase.Repairing? || s.phase.Trimming?)
    ensures s.phase.Repairing? ==> Enabled(s, Oldest, l) || Enabled(s, Repaired, l)
    ensures s.phase.Trimming? ==> Enabled(s, Oldest, l) || Enabled(s, Finish, l)
    ensures s.phase.Trimming? && Enabled(s, Oldest, l) ==>
              (s.phase.latest in s.content <==> s.phase.latest in Apply(s, Oldest, l).content)
  {
  }

  // ----- a save is a run -----

  /** Neither the link nor the end of a save. */
  predicate Quiet(step: Step) {
    !step.Publish? && !step.Finish? && !step.Stop?
  }

  predicate AllQuiet(steps: seq<Step>) {
    forall step :: step in steps ==> Quiet(step)
  }

  /** The steps of one save, which makes the link in `links` if there is one. */
  predicate OneSave(steps: seq<Step>, links: seq<File>) {
    var n := |steps| - 1;
    n >= 0 && (steps[n].Finish? || steps[n].Stop?) && |links| <= 1 &&
    if |links| == 0 then AllQuiet(steps[..n])
    else exists i :: 0 <= i < n && steps[i] == Publish(links[0]) && AllQuiet(steps[..i]) && AllQuiet(steps[i + 1..n])
  }

  lemma QuietSave(steps: seq<Step>, last: Step)
    requires AllQuiet(steps) && (last.Finish? || last.Stop?)
    ensures OneSave(steps + [last], [])
  {
    assert (steps + [last])[..|steps|] == steps;
  }

  lemma LinkingSave(before: seq<Step>, f: File, after: seq<Step>, last: Step)
    requires AllQuiet(before) && AllQuiet(after) && (last.Finish? || last.Stop?)
    ensures OneSave(before + ([Publish(f)] + after + [last]), [f])
  {
    var steps, i := before + ([Publish(f)] + after + [last]), |before|;
    assert steps[i] == Publish(f) && steps[..i] == before && steps[i + 1..|steps| - 1] == after;
  }

  /** While the new capture is trimmed for, only someone else can remove it. */
  lemma {:induction false} TrimmingKeeps(s: State, steps: seq<Step>, f: File, l: Limits)
    requires Possible(s, steps, l) && |steps| > 0 && AllQuiet(steps[..|steps| - 1]) && Vanish(f) !in steps
    requires s.phase.Trimming? && f in s.content && forall g :: g in s.phase.rest ==> g.name != f.name
    ensures f in After(s, steps, l).content
    decreases |steps|
  {
    if |steps| > 1 {
      assert steps[0] in steps[..|steps| - 1];
      assert steps[..|steps| - 1][1..] == steps[1..][..|steps| - 2];
      assert steps[0].Oldest? ==> s.phase.rest[0] in s.phase.rest;
      TrimmingKeeps(Apply(s, steps[0], l), steps[1..], f, l);
    }
  }

  lemma {:induction false} LinkKeeps(s: State, steps: seq<Step>, i: nat, f: File, l: Limits)
    requires Possible(s, steps, l) && i < |steps| - 1 && steps[i] == Publish(f) && Vanish(f) !in steps
    requires AllQuiet(steps[i + 1..|steps| - 1])
    ensures f in After(s, steps, l).content
    decreases |steps|
  {
    if i == 0 {
      assert steps[1..|steps| - 1] == steps[1..][..|steps| - 2];
      TrimmingKeeps(Apply(s, steps[0], l), steps[1..], f, l);
    } else {
      assert steps[1..][i..|steps| - 2] == steps[i + 1..|steps| - 1];
      LinkKeeps(Apply(s, steps[0], l), steps[1..], i - 1, f, l);
    }
  }

  /** What a save reports of its steps: success is a finished run, and a path is returned only for
      a capture that was linked. */
  predicate Returns(steps: seq<Step>, links: seq<File>, r: SaveResult) {
    OneSave(steps, links) && (steps[|steps| - 1] == if r.Saved? then Finish else Stop) &&
    (!r.Unpublished? ==> |links| == 1)
  }

  /** The capture a save linked is there when the save ends, however it ends, unless someone else
      removed it. */
  lemma LinkedStays(s: State, steps: seq<Step>, f: File, l: Limits)
    requires Possible(s, steps, l) && OneSave(steps, [f]) && Vanish(f) !in steps
    ensures f in After(s, steps, l).content
  {
    var n := |steps| - 1;
    var i :| 0 <= i < n && steps[i] == Publish([f][0]) && AllQuiet(steps[..i]) && AllQuiet(steps[i + 1..n]);
    LinkKeeps(s, steps, i, f, l);
  }

  predicate Reaches(s: State, steps: seq<Step>, l: Limits, r: State) {
    Possible(s, steps, l) && After(s, steps, l) == r
  }

  lemma {:induction false} Joined(s: State, a: seq<Step>, t: State, b: seq<Step>, r: State, l: Limits)
    requires Reaches(s, a, l, t) && Reaches(t, b, l, r)
    ensures Reaches(s, a + b, l, r)
    decreases |a|
  {
    if |a| == 0 {
      assert a + b == b;
    } else {
      assert (a + b)[1..] == a[1..] + b;
      Joined(Apply(s, a[0], l), a[1..], t, b, r, l);
    }
  }

  lemma Then(s: State, steps: seq<Step>, t: State, step: Step, l: Limits)
    requires Reaches(s, steps, l, t) && Enabled(t, step, l)
    ensures Reaches(s, steps + [step], l, Apply(t, step, l))
  {
    assert [step][1..] == [];
    Joined(s, steps, t, [step], Apply(t, step, l), l);
  }

  /** Files removed by others are that many steps. */
  lemma {:induction false} Vanished(s: State, gone: set<File>, l: Limits) returns (steps: seq<Step>)
    ensures Reaches(s, steps, l, s.(content := s.content - gone)) && AllQuiet(steps)
    decreases |gone|
  {
    steps := [];
    if gone == {} {
      assert s.content - gone == s.content;
    } else {
      var f :| f in gone;
      var more := Vanished(s, gone - {f}, l);
      var t := s.(content := s.content - (gone - {f}));
      Then(s, more, t, Vanish(f), l);
      assert t.content - {f} == s.content - gone;
      steps := more + [Vanish(f)];
    }
  }

  /** What a rotation still has to meet in this phase. */
  predicate Pending(p: Phase, rest: seq<File>, l: Limits) {
    match p
    case Repairing(_) => Over(rest, 0, 0, l)
    case Trimming(_, f) => Over(rest, f.size, 1, l)
    case _ => false
  }

  function Rotated(s: State, k: nat): State
    requires k <= |Rest(s.phase)|
  {
    State(s.content - Files(Rest(s.phase)[..k]),
          match s.phase
          case Off => Off
          case Repairing(rest) => Repairing(rest[k..])
          case Ready(rest) => Ready(rest[k..])
          case Trimming(rest, f) => Trimming(rest[k..], f))
  }

  /** Removing a prefix that is needed is that many steps. */
  lemma {:induction false} PrefixRemoved(s: State, k: nat, l: Limits) returns (steps: seq<Step>)
    requires k <= |Rest(s.phase)| && forall m :: 0 <= m < k ==> Pending(s.phase, Rest(s.phase)[m..], l)
    ensures Reaches(s, steps, l, Rotated(s, k)) && AllQuiet(steps)
    decreases k
  {
    steps := [];
    var rest := Rest(s.phase);
    if k == 0 {
      assert rest[0..] == rest && s.content - Files(rest[..0]) == s.content;
    } else {
      var before := PrefixRemoved(s, k - 1, l);
      TakeOldest(rest, k - 1);
      assert rest[k - 1..][1..] == rest[k..];
      hide Over, Files;
      assert Pending(s.phase, rest[k - 1..], l);
      Then(s, before, Rotated(s, k - 1), Oldest, l);
      steps := before + [Oldest];
    }
  }

  /** What is left of the listing when `k` of its oldest files and those in `gone` are not there. */
  function Left(listing: seq<File>, k: nat, gone: set<File>): set<File>
    requires k <= |listing|
  {
    Files(listing[k..]) - gone
  }

  lemma {:induction false} LastStep(s: State, steps: seq<Step>, l: Limits)
    requires |steps| > 0 && Possible(s, steps, l)
    ensures var n := |steps| - 1;
            Possible(s, steps[..n], l) && Enabled(After(s, steps[..n], l), steps[n], l) &&
            After(s, steps, l) == Apply(After(s, steps[..n], l), steps[n], l)
    decreases |steps|
  {
    if |steps| > 1 {
      LastStep(Apply(s, steps[0], l), steps[1..], l);
      assert steps[..|steps| - 1][1..] == steps[1..][..|steps| - 2];
    }
  }

  /** A run of saves stays within one capture of the quota, and one that ends by finishing a save
      is within the quota itself. */
  lemma SavesKeepQuota(content: set<File>, steps: seq<Step>, l: Limits, after: set<File>)
    requires Sensible(l) && AtMost(content, l.maxFiles + 1, l.maxStorage + l.maxFile)
    requires Reaches(State(content, Off), steps, l, State(after, Off))
    ensures AtMost(after, l.maxFiles + 1, l.maxStorage + l.maxFile)
    ensures |steps| > 0 && steps[|steps| - 1] == Finish ==> AtMost(after, l.maxFiles, l.maxStorage)
  {
    hide AtMost, Enabled;
    QuotaOverRuns(content, steps, l);
    if |steps| > 0 && steps[|steps| - 1] == Finish {
      LastStep(State(content, Off), steps, l);
      SavedWithinQuota(content, steps[..|steps| - 1], l);
    }
  }

  /** The steps that scan the directory and repair an exceeded quota. */
  lemma PrepareRun(content: set<File>, listing: seq<File>, early: set<File>, k: nat, ok: bool, l: Limits)
    returns (steps: seq<Step>)
    requires Sensible(l) && Lists(listing, content)
    requires k <= Needed(listing, 0, 0, l) && (ok ==> k == Needed(listing, 0, 0, l))
    ensures Reaches(State(content, Off), steps, l,
                    State(Left(listing, k, early), if ok then Ready(listing[k..]) else Off))
    ensures if ok then AllQuiet(steps) else OneSave(steps, []) && steps[|steps| - 1] == Stop
  {
    hide Needed, Over, Files, Distinct;
    var s := State(content, Off);
    var t := Apply(s, Begin(listing), l);
    var u := t.(content := content - early);
    steps := Scanned(content, listing, early, l);
    NeededIsShortest(listing, 0, 0, l);
    assert listing[0..] == listing;
    if t.phase.Repairing? {
      var more := PrefixRemoved(u, k, l);
      Joined(s, steps, u, more, Rotated(u, k), l);
      steps := steps + more;
    }
    Remaining(listing, k);
    var v := State(Left(listing, k, early), if t.phase.Repairing? then Repairing(listing[k..]) else t.phase);
    assert v.content == u.content - Files(listing[..k]);
    assert k == 0 || t.phase.Repairing?;
    assert Reaches(s, steps, l, v);
    var last := if ok then Repaired else Stop;
    if t.phase.Repairing? || !ok {
      Then(s, steps, v, last, l);
      if !ok {
        QuietSave(steps, Stop);
      }
      steps := steps + [last];
    }
  }

  lemma Scanned(content: set<File>, listing: seq<File>, early: set<File>, l: Limits) returns (steps: seq<Step>)
    requires Lists(listing, content)
    ensures var t := Apply(State(content, Off), Begin(listing), l);
            Reaches(State(content, Off), steps, l, t.(content := content - early)) && AllQuiet(steps)
  {
    hide Over, Lists;
    var s := State(content, Off);
    var t := Apply(s, Begin(listing), l);
    assert Reaches(s, [], l, s);
    Then(s, [], s, Begin(listing), l);
    var more := Vanished(t, early, l);
    Joined(s, [] + [Begin(listing)], t, more, t.(content := content - early), l);
    steps := [] + [Begin(listing)] + more;
  }

  /** The steps that publish the capture and trim for it. */
  lemma TrimRun(content: set<File>, rest: seq<File>, f: File, late: set<File>, k: nat, ok: bool, l: Limits)
    returns (steps: seq<Step>)
    requires Sensible(l) && Enabled(State(content, Ready(rest)), Publish(f), l)
    requires k <= Needed(rest, f.size, 1, l) && (ok ==> k == Needed(rest, f.size, 1, l))
    ensures Reaches(State(content, Ready(rest)), steps, l, State(content + {f} - late - Files(rest[..k]), Off))
    ensures exists after :: AllQuiet(after) && steps == [Publish(f)] + after + [if ok then Finish else Stop]
  {
    hide Needed, Over, Files;
    var s := State(content, Ready(rest));
    var t := Apply(s, Publish(f), l);
    var u := t.(content := t.content - late);
    assert Reaches(s, [], l, s);
    Then(s, [], s, Publish(f), l);
    var gone := Vanished(t, late, l);
    Joined(s, [] + [Publish(f)], t, gone, u, l);
    NeededIsShortest(rest, f.size, 1, l);
    var more := PrefixRemoved(u, k, l);
    Joined(s, [] + [Publish(f)] + gone, u, more, Rotated(u, k), l);
    var last := if ok then Finish else Stop;
    steps := [] + [Publish(f)] + gone + more;
    Then(s, steps, Rotated(u, k), last, l);
    steps := steps + [last];
    assert AllQuiet(gone + more) && steps == [Publish(f)] + (gone + more) + [last];
  }

  lemma Publishable(listing: seq<File>, a: nat, early: set<File>, f: File, l: Limits)
    requires a <= |listing| && f.size <= l.maxFile && forall g :: g in listing ==> g.name != f.name
    ensures Enabled(State(Left(listing, a, early), Ready(listing[a..])), Publish(f), l)
  {
  }

  /** Staging that publishes nothing. */
  lemma AbandonRun(content: set<File>, rest: seq<File>, late: set<File>, l: Limits) returns (steps: seq<Step>)
    ensures Reaches(State(content, Ready(rest)), steps, l, State(content - late, Off))
    ensures exists before :: AllQuiet(before) && steps == before + [Stop]
  {
    var s := State(content, Ready(rest));
    var gone := Vanished(s, late, l);
    Then(s, gone, s.(content := content - late), Stop, l);
    steps := gone + [Stop];
  }

  lemma ListsDistinct(listing: seq<File>, content: set<File>)
    requires Lists(listing, content)
    ensures Distinct(listing) && content == Files(listing)
  {
  }

  lemma Kept(listing: seq<File>, k: nat, early: set<File>)
    requires k <= |listing| && Distinct(listing)
    ensures Files(listing) - early - Files(listing[..k]) == Left(listing, k, early)
  {
    Remaining(listing, k);
  }

  lemma KeepsQuota(content: set<File>, steps: seq<Step>, l: Limits, after: set<File>)
    requires Sensible(l) && Reaches(State(content, Off), steps, l, State(after, Off))
    ensures AtMost(content, l.maxFiles + 1, l.maxStorage + l.maxFile) ==>
              AtMost(after, l.maxFiles + 1, l.maxStorage + l.maxFile) &&
              (|steps| > 0 && steps[|steps| - 1] == Finish ==> AtMost(after, l.maxFiles, l.maxStorage))
  {
    if AtMost(content, l.maxFiles + 1, l.maxStorage + l.maxFile) {
      SavesKeepQuota(content, steps, l, after);
    }
  }

  lemma Abandoned(steps: seq<Step>, more: seq<Step>)
    requires AllQuiet(steps) && exists before :: AllQuiet(before) && more == before + [Stop]
    ensures Returns(steps + more, [], Unpublished)
  {
    var before :| AllQuiet(before) && more == before + [Stop];
    QuietSave(steps + before, Stop);
    assert steps + more == steps + before + [Stop];
  }

  lemma LinkedOnce(steps: seq<Step>, more: seq<Step>, f: File, ok: bool)
    requires AllQuiet(steps)
    requires exists after :: AllQuiet(after) && more == [Publish(f)] + after + [if ok then Finish else Stop]
    ensures Returns(steps + more, [f], if ok then Saved else Unrotated)
    ensures !ok ==> Returns(steps + more, [f], Unpublished)
  {
    var after :| AllQuiet(after) && more == [Publish(f)] + after + [if ok then Finish else Stop];
    LinkingSave(steps, f, after, if ok then Finish else Stop);
  }

  /** The directory scanned and an exceeded quota repaired. */
  method Prepare(dir: Directory, l: Limits, listing: seq<File>, repair: seq<Fate>, syncFails: bool, early: set<File>)
    returns (rest: seq<File>, total: nat, ok: bool, ghost steps: seq<Step>)
    requires Sensible(l) && Lists(listing, dir.content) && |repair| == |listing|
    modifies dir
    ensures |rest| <= |listing| && rest == listing[|listing| - |rest|..] && total == Total(rest)
    ensures var k := |listing| - |rest|;
            k <= Needed(listing, 0, 0, l) && (ok ==> k == Needed(listing, 0, 0, l)) &&
            dir.content == Left(listing, k, early)
    ensures Reaches(State(old(dir.content), Off), steps, l, State(dir.content, if ok then Ready(rest) else Off))
    ensures if ok then AllQuiet(steps) else OneSave(steps, []) && steps[|steps| - 1] == Stop
  {
    hide Needed, Total, Over, Files, Possible, After, Enabled, Lists, Left, Goes, Reaches;
    ghost var content := dir.content;
    ListsDistinct(listing, content);
    total := SumSizes(listing);
    rest, ok := listing, true;
    dir.content := dir.content - early;
    if Exceeds(|listing|, total, 0, 0, l) {
      rest, total, ok := Rotate(dir, listing, total, 0, 0, l, repair, syncFails);
    } else {
      NeededNone(listing, l);
      NoneTaken(listing);
    }
    Kept(listing, |listing| - |rest|, early);
    steps := PrepareRun(content, listing, early, |listing| - |rest|, ok, l);
  }

  lemma Trimmed(fs: seq<File>, a: nat, k: nat, f: File, early: set<File>, late: set<File>)
    requires a + k <= |fs| && Distinct(fs) && forall g :: g in fs ==> g.name != f.name
    ensures Left(fs, a, early) + {f} - late - Files(fs[a..][..k]) == Left(fs, a + k, early) + {f} - late
    ensures f !in Files(fs[a..][..k])
  {
    Remaining(fs, a);
    Remaining(fs[a..], k);
    assert fs[a..][k..] == fs[a + k..];
  }

  /** A save that succeeds adds its capture and removes exactly the shortest oldest-first prefix
      that makes room for it; one that does not only removes a prefix no longer than that, and
      publishes nothing unless the link itself was made. Others may remove the files in `early`
      after the scan, those in `late` while the capture is staged and published, and any file
      just when rotation reaches it. Whatever the outcome, the save is a run of the steps above. */
  method Save(dir: Directory, l: Limits, listing: seq<File>, p: Publication, repair: seq<Fate>, trim: seq<Fate>,
              syncFails: bool, early: set<File>, late: set<File>)
    returns (r: SaveResult, ghost steps: seq<Step>, ghost links: seq<File>)
    requires Sensible(l) && Lists(listing, dir.content)
    requires p.Linked? ==> p.file.size <= l.maxFile && forall f :: f in listing ==> f.name != p.file.name
    requires |repair| == |listing| && |trim| == |listing|
    modifies dir
    ensures r.Saved? ==>
              p.Linked? && dir.content == Left(listing, Needed(listing, p.file.size, 1, l), early) + {p.file} - late
    ensures !r.Saved? ==>
              exists k :: 0 <= k <= (if p.Linked? then Needed(listing, p.file.size, 1, l)
                                     else Needed(listing, 0, 0, l)) &&
                          (dir.content == Left(listing, k, early) || dir.content == Left(listing, k, early) - late ||
                           (p.Linked? && dir.content == Left(listing, k, early) + {p.file} - late))
    ensures r.Unrotated? ==> p.Linked? && p.confirmed && (p.file in dir.content <==> p.file !in late)
    ensures p == NotPublished ==> r.Unpublished?
    ensures Reaches(State(old(dir.content), Off), steps, l, State(dir.content, Off))
    ensures Returns(steps, links, r) && (links == [] || (p.Linked? && links == [p.file]))
    ensures |links| == 1 ==> (r.Unpublished? <==> !p.confirmed)
    ensures AtMost(old(dir.content), l.maxFiles + 1, l.maxStorage + l.maxFile) ==>
              AtMost(dir.content, l.maxFiles + 1, l.maxStorage + l.maxFile) &&
              (r.Saved? ==> AtMost(dir.content, l.maxFiles, l.maxStorage))
  {
    hide Needed, Total, Over, Files, Possible, After, Enabled, Lists, Left, Goes, Reaches, AtMost;
    ghost var before := State(dir.content, Off);
    ListsDistinct(listing, dir.content);
    if p.Linked? {
      RepairThenTrim(listing, p.file.size, 1, l);
    }
    var rest, total, ok;
    rest, total, ok, steps := Prepare(dir, l, listing, repair, syncFails, early);
    ghost var a := |listing| - |rest|;
    if !ok {
      KeepsQuota(before.content, steps, l, dir.content);
      return Unpublished, steps, [];
    }
    Remaining(listing, a);
    ghost var ready := State(dir.content, Ready(rest));
    ghost var more;
    if p.NotPublished? {
      dir.content := dir.content - late;
      more := AbandonRun(ready.content, rest, late, l);
      Joined(before, steps, ready, more, State(dir.content, Off), l);
      KeepsQuota(before.content, steps + more, l, dir.content);
      Abandoned(steps, more);
      return Unpublished, steps + more, [];
    }
    dir.content := dir.content + {p.file} - late;
    var last, left := rest, total;
    if p.confirmed {
      last, left, ok := Rotate(dir, rest, total, p.file.size, 1, l, trim[|listing| - |rest|..], syncFails);
    }
    ghost var k := |rest| - |last|;
    NoneTaken(rest);
    assert dir.content == ready.content + {p.file} - late - Files(rest[..k]);
    Publishable(listing, a, early, p.file, l);
    more := TrimRun(ready.content, rest, p.file, late, k, p.confirmed && ok, l);
    Joined(before, steps, ready, more, State(dir.content, Off), l);
    Trimmed(listing, a, k, p.file, early, late);
    LinkedOnce(steps, more, p.file, p.confirmed && ok);
    steps, links := steps + more, [p.file];
    KeepsQuota(before.content, steps, l, dir.content);
    return if !p.confirmed then Unpublished else if ok then Saved else Unrotated, steps, links;
  }
}
