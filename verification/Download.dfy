/**
 The download cache (src/robot_dh/lake/store.py, lines 293-438): parallel downloads into
 a local directory, each written to a `.part` file and renamed, files of the right size
 skipped. One process at a time; a process may die at any point and leave anything
 half-written under a `.part` name. Remote objects do not change.
 */
module Download {
  import opened Wrappers
  import opened LakeUri
  import opened LocalPath

  type Bytes = seq<int>

  /** The local disk. */
  type Files = map<File, Bytes>

  /** The objects under the prefix by relative name, and the directory they go to. */
  datatype Remote = Remote(dir: string, objects: map<string, Bytes>) {

    /** The segments of `local_dir / rel`. */
    function Way(k: string): seq<string> { Under(PathOf(dir), k).segs }

    /** There is something to name a temporary file after. */
    predicate HasName(k: string) { Way(k) != [] }

    /** The name denotes a file; one that ends in `..` can only be a directory. */
    predicate IsFile(k: string) { EndsInName(Way(k)) }

    /** The file a name is downloaded to, and the one it is written to first. */
    function Target(k: string): File { Walk(Way(k)) }

    function Temp(k: string): File { Walk(WithPart(Way(k))) }
  }

  /** The names of files, and the names whose download can begin. */
  ghost predicate Named(remote: Remote, k: string) { k in remote.objects && remote.IsFile(k) }

  ghost predicate Begun(remote: Remote, k: string) { k in remote.objects && remote.HasName(k) }

  /** Different names go to different files, and no temporary file is a name's file. */
  ghost predicate NoClash(remote: Remote) {
    (forall a, b :: Named(remote, a) && Named(remote, b) && a != b ==> remote.Target(a) != remote.Target(b)) &&
    (forall a, b :: Begun(remote, a) && Named(remote, b) ==> remote.Temp(a) != remote.Target(b))
  }

  lemma PartsApart(remote: Remote, a: string, b: string)
    requires NoClash(remote) && Named(remote, a) && Begun(remote, b) && a != b
    ensures remote.Temp(a) != remote.Temp(b)
  {
    PartInjective(remote.Way(a), remote.Way(b));
    if remote.Temp(a) == remote.Temp(b) { assert Named(remote, b); }
  }

  /** _matches_local: only a positive size can match. */
  predicate MatchesLocal(local: Files, f: File, size: nat) {
    size > 0 && f in local && |local[f]| == size
  }

  /** What the main thread skips. */
  predicate Skippable(remote: Remote, local: Files, k: string)
    requires k in remote.objects
  {
    remote.IsFile(k) && MatchesLocal(local, remote.Target(k), |remote.objects[k]|)
  }

  // ---------- the transition system ----------

  /** A worker thread on one object: its `.part` being written, complete, or given up. */
  datatype Thread = Writing | Fetched | Failed | Renamed

  /** A call to download_dir: the names still to look at, and the threads it started. */
  datatype Call = Call(wanted: set<string>, unseen: set<string>, threads: map<string, Thread>)

  /** The local disk and the running call, if any. */
  datatype State = State(local: Files, call: Option<Call>)

  datatype Step =
    | Begin(wanted: set<string>)
    | Look(k: string)                      // main thread: skip the file or submit it
    | Scribble(k: string, bytes: Bytes)    // some of the .part file has been written
    | Fetch(k: string)                     // download_file returned: .part is complete
    | Rename(k: string)
    | GiveUp(k: string, removed: bool)     // download or rename failed; the .part may stay behind
    | Return
    | Die

  predicate InState(s: State, k: string, t: Thread) {
    s.call.Some? && k in s.call.value.threads && s.call.value.threads[k] == t
  }

  ghost predicate Enabled(remote: Remote, s: State, step: Step) {
    match step
    case Begin(wanted) => s.call.None? && wanted <= remote.objects.Keys
    case Look(k) => s.call.Some? && k in s.call.value.unseen && k in remote.objects
    case Scribble(k, _) => InState(s, k, Writing) && Begun(remote, k)
    case Fetch(k) => InState(s, k, Writing) && Begun(remote, k)
    case Rename(k) => InState(s, k, Fetched) && Named(remote, k) && remote.Temp(k) in s.local
    case GiveUp(k, _) => InState(s, k, Writing) || InState(s, k, Fetched)
    case Return =>
      s.call.Some? && s.call.value.unseen == {} &&
      forall k :: k in s.call.value.threads ==> s.call.value.threads[k].Renamed?
    case Die => s.call.Some?
  }

  function Remove(files: Files, f: File): Files { map x | x in files && x != f :: files[x] }

  function Moved(files: Files, src: File, dst: File): Files
    requires src in files
  {
    Remove(files, src)[dst := files[src]]
  }

  function SetThread(c: Call, k: string, t: Thread): Call { c.(threads := c.threads[k := t]) }

  ghost function Apply(remote: Remote, s: State, step: Step): State
    requires Enabled(remote, s, step)
  {
    match step
    case Begin(wanted) => s.(call := Some(Call(wanted, wanted, map[])))
    case Look(k) =>
      var c := s.call.value.(unseen := s.call.value.unseen - {k});
      if Skippable(remote, s.local, k) then s.(call := Some(c))
      else s.(call := Some(SetThread(c, k, Writing)))
    case Scribble(k, bytes) => s.(local := s.local[remote.Temp(k) := bytes])
    case Fetch(k) => State(s.local[remote.Temp(k) := remote.objects[k]], Some(SetThread(s.call.value, k, Fetched)))
    case Rename(k) => State(Moved(s.local, remote.Temp(k), remote.Target(k)), Some(SetThread(s.call.value, k, Renamed)))
    case GiveUp(k, removed) =>
      State(if removed && remote.HasName(k) then Remove(s.local, remote.Temp(k)) else s.local,
            Some(SetThread(s.call.value, k, Failed)))
    case Return => s.(call := None)
    case Die => s.(call := None)
  }

  ghost function Perform(remote: Remote, s: State, step: Step): State {
    if Enabled(remote, s, step) then Apply(remote, s, step) else s
  }

  ghost function Run(remote: Remote, s: State, steps: seq<Step>): State
    decreases steps
  {
    if steps == [] then s else Run(remote, Perform(remote, s, steps[0]), steps[1..])
  }

  const Empty := State(map[], None)

  // ---------- no half file under a final name ----------

  /** The file of a remote name is that object, complete. */
  ghost predicate FinalOk(remote: Remote, local: Files) {
    forall k :: Named(remote, k) && remote.Target(k) in local ==> local[remote.Target(k)] == remote.objects[k]
  }

  /** The file is missing, or nothing is in the object anyway. */
  predicate Missing(remote: Remote, local: Files, k: string)
    requires k in remote.objects
  {
    remote.Target(k) !in local || remote.objects[k] == []
  }

  /** A `.part` lies around only beside a file that is missing or empty. */
  ghost predicate PartsOk(remote: Remote, local: Files) {
    forall k :: Named(remote, k) && remote.Temp(k) in local ==> Missing(remote, local, k)
  }

  /** Local files are the files of the names in `scope` and their temporary files. */
  ghost predicate Within(remote: Remote, scope: set<string>, local: Files) {
    forall f :: f in local ==> exists k :: k in scope && (f == remote.Target(k) || f == remote.Temp(k))
  }

  ghost predicate ThreadOk(remote: Remote, local: Files, k: string, t: Thread)
    requires k in remote.objects
  {
    remote.IsFile(k) ==>
    match t
    case Writing => Missing(remote, local, k)
    case Fetched => Missing(remote, local, k) && remote.Temp(k) in local && local[remote.Temp(k)] == remote.objects[k]
    case Failed => Missing(remote, local, k)
    case Renamed => remote.Target(k) in local && remote.Temp(k) !in local
  }

  ghost predicate ThreadsOk(remote: Remote, local: Files, c: Call)
    requires c.threads.Keys <= remote.objects.Keys
  {
    forall k :: k in c.threads ==>
      ThreadOk(remote, local, k, c.threads[k]) && (c.threads[k].Renamed? ==> remote.IsFile(k))
  }

  /** Names looked at and not submitted were complete. */
  ghost predicate SkipsOk(remote: Remote, local: Files, c: Call)
    requires c.wanted <= remote.objects.Keys
  {
    forall k :: k in c.wanted - c.unseen && k !in c.threads ==>
      remote.IsFile(k) && remote.Target(k) in local && remote.objects[k] != []
  }

  ghost predicate CallOk(remote: Remote, local: Files, c: Call) {
    c.unseen <= c.wanted && c.wanted <= remote.objects.Keys && c.threads.Keys <= c.wanted - c.unseen &&
    ThreadsOk(remote, local, c) && SkipsOk(remote, local, c)
  }

  ghost predicate Inv(remote: Remote, scope: set<string>, s: State) {
    FinalOk(remote, s.local) && PartsOk(remote, s.local) && Within(remote, scope, s.local) &&
    (s.call.Some? ==> CallOk(remote, s.local, s.call.value) && s.call.value.wanted <= scope)
  }

  /** Writing or removing a temporary file. */
  lemma TempTouched(remote: Remote, local: Files, after: Files, k: string)
    requires NoClash(remote) && Begun(remote, k) && FinalOk(remote, local) && PartsOk(remote, local)
    requires remote.IsFile(k) ==> Missing(remote, local, k)
    requires forall f :: f != remote.Temp(k) ==> (f in after <==> f in local) && (f in local ==> after[f] == local[f])
    ensures FinalOk(remote, after) && PartsOk(remote, after)
  {
    var p := remote.Temp(k);
    forall x | Named(remote, x)
      ensures (remote.Target(x) in after <==> remote.Target(x) in local) &&
              (remote.Target(x) in local ==> after[remote.Target(x)] == local[remote.Target(x)])
    {
      assert p != remote.Target(x);
    }
    forall x | Named(remote, x) && remote.Temp(x) in after ensures Missing(remote, after, x) {
      assert p != remote.Target(x);
      if x != k { PartsApart(remote, x, k); assert remote.Temp(x) in local; }
    }
  }

  /** Renaming a complete temporary file. */
  lemma TempMoved(remote: Remote, local: Files, k: string)
    requires NoClash(remote) && Named(remote, k) && FinalOk(remote, local) && PartsOk(remote, local)
    requires remote.Temp(k) in local && local[remote.Temp(k)] == remote.objects[k]
    ensures var after := Moved(local, remote.Temp(k), remote.Target(k));
      FinalOk(remote, after) && PartsOk(remote, after) && remote.Target(k) in after && remote.Temp(k) !in after
  {
    var p, f := remote.Temp(k), remote.Target(k);
    var after := Moved(local, p, f);
    assert p != f;
    forall x | Named(remote, x) && x != k
      ensures (remote.Target(x) in after <==> remote.Target(x) in local) &&
              (remote.Target(x) in local ==> after[remote.Target(x)] == local[remote.Target(x)])
    {
      assert p != remote.Target(x) && f != remote.Target(x);
    }
    forall x | Named(remote, x) && remote.Temp(x) in after ensures Missing(remote, after, x) {
      assert x != k;
      assert remote.Temp(x) != f && p != remote.Target(x) && f != remote.Target(x);
      assert remote.Temp(x) in local;
    }
  }

  /** The other threads do not notice what happens to one name's files. */
  lemma OtherThreadKept(remote: Remote, local: Files, after: Files, k: string, x: string, t: Thread)
    requires NoClash(remote) && Begun(remote, k) && x in remote.objects && x != k
    requires ThreadOk(remote, local, x, t)
    requires forall f :: f != remote.Temp(k) && (remote.IsFile(k) ==> f != remote.Target(k)) ==>
      (f in after <==> f in local) && (f in local ==> after[f] == local[f])
    ensures ThreadOk(remote, after, x, t)
  {
    if remote.IsFile(x) {
      PartsApart(remote, x, k);
      assert remote.Target(x) != remote.Temp(k);
      if remote.IsFile(k) { assert remote.Temp(x) != remote.Target(k) && remote.Target(x) != remote.Target(k); }
    }
  }

  lemma WithinGrows(remote: Remote, scope: set<string>, local: Files, after: Files, k: string)
    requires Within(remote, scope, local) && k in scope
    requires forall f :: f in after ==> f in local || f == remote.Temp(k) || f == remote.Target(k)
    ensures Within(remote, scope, after)
  {
    forall f | f in after ensures exists x :: x in scope && (f == remote.Target(x) || f == remote.Temp(x)) {
      if f !in local { assert k in scope; }
    }
  }

  lemma LookKept(remote: Remote, scope: set<string>, s: State, k: string)
    requires Inv(remote, scope, s) && Enabled(remote, s, Look(k))
    ensures Inv(remote, scope, Apply(remote, s, Look(k)))
  {
    var c := s.call.value;
    if remote.IsFile(k) && !Skippable(remote, s.local, k) {
      assert Named(remote, k);
      if remote.Target(k) in s.local { assert s.local[remote.Target(k)] == remote.objects[k]; }
      assert Missing(remote, s.local, k);
    }
  }

  /** Scribble, Fetch and GiveUp touch the temporary file of a thread that is writing. */
  lemma WriterKept(remote: Remote, scope: set<string>, s: State, step: Step)
    requires NoClash(remote) && Inv(remote, scope, s) && Enabled(remote, s, step)
    requires step.Scribble? || step.Fetch? || step.GiveUp?
    ensures Inv(remote, scope, Apply(remote, s, step))
  {
    var c, t, k := s.call.value, Apply(remote, s, step), step.k;
    var d := t.call.value;
    assert ThreadOk(remote, s.local, k, c.threads[k]);
    if step.GiveUp? && (!step.removed || !remote.HasName(k)) {
      assert t.local == s.local;
    } else {
      TempTouched(remote, s.local, t.local, k);
      WithinGrows(remote, scope, s.local, t.local, k);
    }
    forall x | x in d.threads ensures ThreadOk(remote, t.local, x, d.threads[x]) {
      if x != k && t.local != s.local { OtherThreadKept(remote, s.local, t.local, k, x, c.threads[x]); }
    }
  }

  lemma RenameKept(remote: Remote, scope: set<string>, s: State, k: string)
    requires NoClash(remote) && Inv(remote, scope, s)
    ensures Enabled(remote, s, Rename(k)) ==> Inv(remote, scope, Apply(remote, s, Rename(k)))
  {
    if Enabled(remote, s, Rename(k)) {
      var c, t := s.call.value, Apply(remote, s, Rename(k));
      var d := t.call.value;
      assert ThreadOk(remote, s.local, k, c.threads[k]);
      TempMoved(remote, s.local, k);
      WithinGrows(remote, scope, s.local, t.local, k);
      forall x | x in d.threads ensures ThreadOk(remote, t.local, x, d.threads[x]) {
        if x != k { OtherThreadKept(remote, s.local, t.local, k, x, c.threads[x]); }
      }
    }
  }

  lemma InvKept(remote: Remote, scope: set<string>, s: State, step: Step)
    requires NoClash(remote) && Inv(remote, scope, s) && (step.Begin? ==> step.wanted <= scope)
    ensures Inv(remote, scope, Perform(remote, s, step))
  {
    if Enabled(remote, s, step) {
      match step
      case Begin(wanted) =>
      case Look(k) => LookKept(remote, scope, s, k);
      case Rename(k) => RenameKept(remote, scope, s, k);
      case Return =>
      case Die =>
      case _ => WriterKept(remote, scope, s, step);
    }
  }

  /** All calls stay within `scope`. */
  predicate Scoped(scope: set<string>, steps: seq<Step>) {
    forall i :: 0 <= i < |steps| && steps[i].Begin? ==> steps[i].wanted <= scope
  }

  lemma {:induction false} RunKeepsInv(remote: Remote, scope: set<string>, s: State, steps: seq<Step>)
    requires NoClash(remote) && Inv(remote, scope, s) && Scoped(scope, steps)
    ensures Inv(remote, scope, Run(remote, s, steps))
    decreases steps
  {
    if steps != [] {
      InvKept(remote, scope, s, steps[0]);
      RunKeepsInv(remote, scope, Perform(remote, s, steps[0]), steps[1..]);
    }
  }

  lemma {:induction false} ScopeOfAll(remote: Remote, s: State, steps: seq<Step>)
    requires NoClash(remote) && Inv(remote, remote.objects.Keys, s)
    ensures Inv(remote, remote.objects.Keys, Run(remote, s, steps))
    decreases steps
  {
    if steps != [] {
      if !steps[0].Begin? || steps[0].wanted <= remote.objects.Keys {
        InvKept(remote, remote.objects.Keys, s, steps[0]);
      }
      ScopeOfAll(remote, Perform(remote, s, steps[0]), steps[1..]);
    }
  }

  // ---------- main results ----------

  /** Whatever calls, thread interleavings and crashes came before: every file of a remote
      name is byte-complete, so a file of the right size may be skipped unread. */
  lemma SkipIsSound(remote: Remote, steps: seq<Step>, k: string)
    requires NoClash(remote) && Named(remote, k)
    ensures var local, f := Run(remote, Empty, steps).local, remote.Target(k);
      FinalOk(remote, local) && (MatchesLocal(local, f, |remote.objects[k]|) ==> local[f] == remote.objects[k])
  {
    ScopeOfAll(remote, Empty, steps);
  }

  /** When a call returns, every file of its listing is there, complete. */
  lemma ReturnedIsComplete(remote: Remote, steps: seq<Step>)
    requires NoClash(remote)
    ensures var s := Run(remote, Empty, steps);
      Enabled(remote, s, Return) ==>
        forall k :: k in s.call.value.wanted ==>
          Named(remote, k) && remote.Target(k) in s.local && s.local[remote.Target(k)] == remote.objects[k]
  {
    ScopeOfAll(remote, Empty, steps);
    var s := Run(remote, Empty, steps);
    if Enabled(remote, s, Return) {
      var c := s.call.value;
      forall k | k in c.wanted ensures Named(remote, k) && remote.Target(k) in s.local {
        if k in c.threads { assert ThreadOk(remote, s.local, k, c.threads[k]); }
      }
    }
  }

  /** The local disk is exactly these objects, each in its file. */
  ghost predicate Mirrors(remote: Remote, wanted: set<string>, local: Files)
    requires wanted <= remote.objects.Keys
  {
    (forall k :: k in wanted ==> remote.Target(k) in local && local[remote.Target(k)] == remote.objects[k]) &&
    (forall f :: f in local ==> exists k :: k in wanted && f == remote.Target(k))
  }

  /** When every call so far asked for the same listing, a returning call leaves the
      directory an exact mirror of it: nothing else, and no stale `.part`. */
  lemma ReturnedIsMirror(remote: Remote, wanted: set<string>, steps: seq<Step>)
    requires NoClash(remote) && wanted <= remote.objects.Keys && Scoped(wanted, steps)
    ensures var s := Run(remote, Empty, steps);
      Enabled(remote, s, Return) && s.call.value.wanted == wanted ==> Mirrors(remote, wanted, s.local)
  {
    RunKeepsInv(remote, wanted, Empty, steps);
    ReturnedIsComplete(remote, steps);
    var s := Run(remote, Empty, steps);
    if Enabled(remote, s, Return) && s.call.value.wanted == wanted {
      var c := s.call.value;
      forall k | k in wanted ensures remote.Temp(k) !in s.local {
        if k in c.threads { assert ThreadOk(remote, s.local, k, c.threads[k]); }
      }
    }
  }

  // ---------- the naming condition is exact ----------

  lemma {:induction false} RunConcat(remote: Remote, s: State, p: seq<Step>, q: seq<Step>)
    ensures Run(remote, s, p + q) == Run(remote, Run(remote, s, p), q)
    decreases p
  {
    if p == [] {
      assert p + q == q;
    } else {
      RunConcat(remote, Perform(remote, s, p[0]), p[1..], q);
      assert (p + q)[1..] == p[1..] + q;
    }
  }

  lemma RunThree(remote: Remote, s: State, x: Step, y: Step, z: Step)
    ensures Run(remote, s, [x, y, z]) == Perform(remote, Perform(remote, Perform(remote, s, x), y), z)
  {
    assert [x, y, z][1..] == [y, z] && [y, z][1..] == [z] && [z][1..] == [];
    var s1 := Perform(remote, s, x);
    var s2 := Perform(remote, s1, y);
    assert Run(remote, s1, [y, z]) == Run(remote, s2, [z]);
    assert Run(remote, s2, [z]) == Run(remote, Perform(remote, s2, z), []);
  }

  /** A half-written `.part` that is another name's file. */
  lemma PartClashRun(remote: Remote, a: string, b: string) returns (steps: seq<Step>)
    requires Begun(remote, a) && Named(remote, b) && remote.Temp(a) == remote.Target(b)
    ensures !FinalOk(remote, Run(remote, Empty, steps).local)
  {
    var wrong := remote.objects[b] + [0];
    steps := [Begin({a}), Look(a), Scribble(a, wrong)];
    RunThree(remote, Empty, Begin({a}), Look(a), Scribble(a, wrong));
    var s1 := Perform(remote, Empty, Begin({a}));
    assert s1 == State(map[], Some(Call({a}, {a}, map[])));
    var s2 := Perform(remote, s1, Look(a));
    assert s2.call.Some? && s2.call.value.threads == map[a := Writing];
    var s3 := Perform(remote, s2, Scribble(a, wrong));
    assert s3.local == map[remote.Target(b) := wrong];
    assert |wrong| != |remote.objects[b]|;
  }

  /** Two names with one file also share their `.part`: one thread renames what the other
      has just overwritten. */
  lemma FileClashRun(remote: Remote, a: string, b: string) returns (steps: seq<Step>)
    requires Named(remote, a) && Named(remote, b) && a != b && remote.Target(a) == remote.Target(b)
    ensures !FinalOk(remote, Run(remote, Empty, steps).local)
  {
    var wrong, p := remote.objects[b] + [0], remote.Temp(b);
    var start, clash := [Begin({a, b}), Look(a), Look(b)], [Fetch(b), Scribble(a, wrong), Rename(b)];
    steps := start + clash;
    PartInjective(remote.Way(a), remote.Way(b));
    RunConcat(remote, Empty, start, clash);
    RunThree(remote, Empty, Begin({a, b}), Look(a), Look(b));
    var s1 := Perform(remote, Empty, Begin({a, b}));
    assert s1 == State(map[], Some(Call({a, b}, {a, b}, map[])));
    var s2 := Perform(remote, s1, Look(a));
    assert {a, b} - {a} == {b};
    assert s2 == State(map[], Some(Call({a, b}, {b}, map[a := Writing])));
    var s3 := Perform(remote, s2, Look(b));
    assert {b} - {b} == {};
    assert s3 == State(map[], Some(Call({a, b}, {}, map[a := Writing, b := Writing])));
    ClashEnds(remote, s3, a, b, wrong);
  }

  lemma ClashEnds(remote: Remote, s: State, a: string, b: string, wrong: Bytes)
    requires Named(remote, a) && Named(remote, b) && a != b && wrong != remote.objects[b]
    requires remote.Temp(a) == remote.Temp(b)
    requires s == State(map[], Some(Call({a, b}, {}, map[a := Writing, b := Writing])))
    ensures !FinalOk(remote, Run(remote, s, [Fetch(b), Scribble(a, wrong), Rename(b)]).local)
  {
    var p := remote.Temp(b);
    RunThree(remote, s, Fetch(b), Scribble(a, wrong), Rename(b));
    var s1 := Perform(remote, s, Fetch(b));
    assert s1.local == map[p := remote.objects[b]] && InState(s1, a, Writing) && InState(s1, b, Fetched);
    var s2 := Perform(remote, s1, Scribble(a, wrong));
    assert s2.local == map[p := wrong] && InState(s2, b, Fetched);
    var s3 := Perform(remote, s2, Rename(b));
    assert s3.local[remote.Target(b)] == wrong;
  }

  /** The naming condition is exact: completeness holds after all runs if and only if
      different names go to different files and no temporary file is a name's file. */
  lemma NoClashIsExact(remote: Remote)
    ensures NoClash(remote) <==> forall steps :: FinalOk(remote, Run(remote, Empty, steps).local)
  {
    if NoClash(remote) {
      forall steps ensures FinalOk(remote, Run(remote, Empty, steps).local) { ScopeOfAll(remote, Empty, steps); }
    } else if a, b :| Begun(remote, a) && Named(remote, b) && remote.Temp(a) == remote.Target(b) {
      var steps := PartClashRun(remote, a, b);
      assert !FinalOk(remote, Run(remote, Empty, steps).local);
    } else {
      var a, b :| Named(remote, a) && Named(remote, b) && a != b && remote.Target(a) == remote.Target(b);
      var steps := FileClashRun(remote, a, b);
      assert !FinalOk(remote, Run(remote, Empty, steps).local);
    }
  }

  lemma PlainWay(remote: Remote, k: string)
    requires Plain(k)
    ensures remote.Way(k) == PathOf(remote.dir).segs + Names(k) && remote.IsFile(k) && remote.HasName(k)
    ensures remote.Target(k) == Walk(PathOf(remote.dir).segs) + Names(k)
    ensures remote.Temp(k) == Walk(PathOf(remote.dir).segs) + Names(k + SUFFIX)
  {
    var dir, segs := PathOf(remote.dir).segs, Names(k);
    PlainPart(k);
    assert segs[|segs| - 1] in segs;
    WalkStraight(dir, segs);
    assert WithPart(dir + segs) == dir + WithPart(segs);
    forall i | 0 <= i < |segs| ensures WithPart(segs)[i] != ".." {
      assert segs[i] in segs;
      PartName(segs[|segs| - 1]);
    }
    WalkStraight(dir, WithPart(segs));
  }

  lemma SameNames(a: string, b: string)
    requires Plain(a) && (Plain(b) || exists k :: Plain(k) && b == k + SUFFIX) && Names(a) == Names(b)
    ensures a == b
  {
    if !Plain(b) {
      var k :| Plain(k) && b == k + SUFFIX;
      PlainPart(k);
      JoinPart(Names(k));
    }
  }

  lemma PlainPair(remote: Remote, a: string, b: string)
    requires Plain(a) && Plain(b)
    ensures remote.Target(a) == remote.Target(b) <==> a == b
    ensures remote.Temp(a) == remote.Target(b) <==> b == a + SUFFIX
  {
    var dir := Walk(PathOf(remote.dir).segs);
    PlainWay(remote, a);
    PlainWay(remote, b);
    if remote.Target(a) == remote.Target(b) {
      SameTail(dir, Names(a), Names(b));
      SameNames(a, b);
    }
    if remote.Temp(a) == remote.Target(b) {
      SameTail(dir, Names(a + SUFFIX), Names(b));
      SameNames(b, a + SUFFIX);
    }
  }

  /** For names spelled plainly that is: no remote name is another one plus `.part`. */
  lemma PlainNamesClash(remote: Remote)
    requires forall k :: k in remote.objects ==> Plain(k)
    ensures NoClash(remote) <==> forall k :: k in remote.objects ==> k + SUFFIX !in remote.objects
  {
    if k :| k in remote.objects && k + SUFFIX in remote.objects {
      PlainPair(remote, k, k + SUFFIX);
      PlainWay(remote, k);
      PlainWay(remote, k + SUFFIX);
      assert Begun(remote, k) && Named(remote, k + SUFFIX);
    } else {
      PlainNamesApart(remote);
    }
  }

  lemma PlainNamesApart(remote: Remote)
    requires forall k :: k in remote.objects ==> Plain(k) && k + SUFFIX !in remote.objects
    ensures NoClash(remote)
  {
    forall a, b | Named(remote, a) && Named(remote, b) && a != b ensures remote.Target(a) != remote.Target(b) {
      PlainPair(remote, a, b);
    }
    forall a, b | Begun(remote, a) && Named(remote, b) ensures remote.Temp(a) != remote.Target(b) {
      PlainPair(remote, a, b);
    }
  }

  lemma SameTail<T>(x: seq<T>, y: seq<T>, z: seq<T>)
    requires x + y == x + z
    ensures y == z
  {
    assert (x + y)[|x|..] == y && (x + z)[|x|..] == z;
  }

  lemma DoubleSlashNames()
    ensures Names("a//b") == Names("a/b") == ["a", "b"] && Root("a//b") == Root("a/b") == 0
  {
    var ab := ["a", "b"];
    assert Join(ab) == "a/b" by { assert ab[1..] == ["b"] && Join(["b"]) == "b"; }
    SegmentsOfJoin(ab);
    assert Segments("a//b") == Segments("a/b") by {
      SegmentsConcat("a", "/b");
      SegmentsConcat("a", "b");
      SegmentsSlash("b");
      assert "a" + "/" + "/b" == "a//b" && "/" + "b" == "/b" && "a" + "/" + "b" == "a/b";
    }
    DropDotsKeeps(ab);
  }

  /** `a/b` and `a//b` are two objects and one file. */
  lemma DoubleSlashClashes(remote: Remote)
    requires "a/b" in remote.objects && "a//b" in remote.objects
    ensures !NoClash(remote)
  {
    DoubleSlashNames();
    var dir := PathOf(remote.dir).segs;
    var way := dir + ["a", "b"];
    assert remote.Way("a//b") == way && remote.Way("a/b") == way;
    assert way[|way| - 1] == "b";
    assert Named(remote, "a/b") && Named(remote, "a//b") && "a/b" != "a//b";
  }
}
