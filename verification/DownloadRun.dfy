/**
 One call of `download_dir` as the program runs it (src/robot_dh/lake/store.py, lines
 333-438): building the task list, skipping, downloading, renaming, cleaning up after a
 failure. Each thing it does to the disk is shown to be a step of module Download.
 */
module DownloadRun {
  import opened Wrappers
  import opened Download

  // ---------- the task list ----------

  predicate IsMarker(rel: string) { rel == "" || rel[|rel| - 1] == '/' }

  predicate HasPrefix(rel: string, prefixes: seq<string>) { exists i :: 0 <= i < |prefixes| && prefixes[i] <= rel }

  /** The filter: directory markers, exclude prefixes, include prefixes. */
  predicate Wanted(rel: string, excludes: seq<string>, includes: seq<string>) {
    !IsMarker(rel) && !HasPrefix(rel, excludes) && (includes == [] || HasPrefix(rel, includes))
  }

  function Tasks(listing: seq<string>, excludes: seq<string>, includes: seq<string>): seq<string> {
    if listing == [] then []
    else
      var n := |listing| - 1;
      var rest := Tasks(listing[..n], excludes, includes);
      if Wanted(listing[n], excludes, includes) then rest + [listing[n]] else rest
  }

  function Markers(listing: seq<string>): nat {
    if listing == [] then 0 else Markers(listing[..|listing| - 1]) + if IsMarker(listing[|listing| - 1]) then 1 else 0
  }

  /** The task list keeps every wanted name, as often as it is listed, and nothing else. */
  lemma {:induction false} TasksAreWanted(listing: seq<string>, excludes: seq<string>, includes: seq<string>)
    ensures var tasks := Tasks(listing, excludes, includes);
      forall k :: multiset(tasks)[k] == if Wanted(k, excludes, includes) then multiset(listing)[k] else 0
  {
    if listing != [] {
      var n := |listing| - 1;
      TasksAreWanted(listing[..n], excludes, includes);
      assert listing == listing[..n] + [listing[n]];
    }
  }

  /** What the filter means for the text of the names. */
  lemma TasksMean(listing: seq<string>, excludes: seq<string>, includes: seq<string>)
    ensures forall k :: k in Tasks(listing, excludes, includes) <==>
      k in listing && k != "" && k[|k| - 1] != '/' &&
      (forall p :: p in excludes ==> !(|p| <= |k| && k[..|p|] == p)) &&
      (includes == [] || exists p :: p in includes && |p| <= |k| && k[..|p|] == p)
  {
    TasksAreWanted(listing, excludes, includes);
    forall k ensures k in Tasks(listing, excludes, includes) <==> k in listing && Wanted(k, excludes, includes) {
      assert k in multiset(Tasks(listing, excludes, includes)) <==> k in Tasks(listing, excludes, includes);
      assert k in multiset(listing) <==> k in listing;
    }
    forall k ensures HasPrefix(k, excludes) <==> exists p :: p in excludes && |p| <= |k| && k[..|p|] == p {
      PrefixMeans(k, excludes);
    }
    forall k ensures HasPrefix(k, includes) <==> exists p :: p in includes && |p| <= |k| && k[..|p|] == p {
      PrefixMeans(k, includes);
    }
  }

  lemma PrefixMeans(k: string, prefixes: seq<string>)
    ensures HasPrefix(k, prefixes) <==> exists p :: p in prefixes && |p| <= |k| && k[..|p|] == p
  {
    if p :| p in prefixes && |p| <= |k| && k[..|p|] == p {
      var i :| 0 <= i < |prefixes| && prefixes[i] == p;
      assert prefixes[i] <= k;
    }
  }

  /** Wanted names in listing order; every other name that is not a directory marker is
      counted as excluded. */
  method BuildTasks(listing: seq<string>, excludes: seq<string>, includes: seq<string>)
    returns (tasks: seq<string>, excludedFiles: nat)
    ensures tasks == Tasks(listing, excludes, includes)
    ensures |tasks| + excludedFiles + Markers(listing) == |listing|
    ensures forall k :: k in tasks <==>
      k in listing && k != "" && k[|k| - 1] != '/' &&
      (forall p :: p in excludes ==> !(|p| <= |k| && k[..|p|] == p)) &&
      (includes == [] || exists p :: p in includes && |p| <= |k| && k[..|p|] == p)
  {
    TasksMean(listing, excludes, includes);
    tasks, excludedFiles := [], 0;
    for i := 0 to |listing|
      invariant tasks == Tasks(listing[..i], excludes, includes)
      invariant |tasks| + excludedFiles + Markers(listing[..i]) == i
    {
      var rel := listing[i];
      assert listing[..i + 1][..i] == listing[..i];
      if IsMarker(rel) { continue; }
      if HasPrefix(rel, excludes) { excludedFiles := excludedFiles + 1; continue; }
      if includes != [] && !HasPrefix(rel, includes) { excludedFiles := excludedFiles + 1; continue; }
      tasks := tasks + [rel];
    }
    assert listing[..|listing|] == listing;
  }

  // ---------- the call ----------

  /** What happens to a transfer: it works; it fails, leaving something half-written that
      is cleaned up or cannot be; or the process dies in the middle of it. */
  datatype Transfer = Works | Fails(partial: Bytes, removed: bool) | Dies(partial: Bytes)

  lemma RunSnoc(remote: Remote, s: State, history: seq<Step>, step: Step)
    ensures Run(remote, s, history + [step]) == Perform(remote, Run(remote, s, history), step)
  {
    RunConcat(remote, s, history, [step]);
    assert [step][1..] == [];
    var t := Run(remote, s, history);
    assert Run(remote, t, [step]) == Run(remote, Perform(remote, t, step), []);
  }

  function ToSet(tasks: seq<string>): (r: set<string>)
    ensures forall k :: k in r <==> k in tasks
  {
    set k | k in tasks
  }

  predicate Distinct(tasks: seq<string>) { forall i, j :: 0 <= i < j < |tasks| ==> tasks[i] != tasks[j] }

  /** The threads of the first `i` names have all renamed their file. */
  predicate AllRenamed(queue: seq<string>, call: Call, i: nat)
    requires i <= |queue| && call.threads.Keys == ToSet(queue)
  {
    forall j :: 0 <= j < i ==> call.threads[queue[j]] == Renamed
  }

  /** The others have not begun. */
  predicate StillWriting(queue: seq<string>, call: Call, i: nat)
    requires i <= |queue| && call.threads.Keys == ToSet(queue)
  {
    forall j :: i <= j < |queue| ==> call.threads[queue[j]] == Writing
  }

  lemma NextThread(queue: seq<string>, call: Call, i: nat, t: Thread)
    requires Distinct(queue) && i < |queue| && call.threads.Keys == ToSet(queue) && StillWriting(queue, call, i)
    ensures var next := SetThread(call, queue[i], t);
      next.threads.Keys == ToSet(queue) && StillWriting(queue, next, i + 1) &&
      (AllRenamed(queue, next, i + 1) <==> AllRenamed(queue, call, i) && t == Renamed)
  {
    var next := SetThread(call, queue[i], t);
    assert queue[i] in queue;
    assert forall j :: 0 <= j < |queue| && j != i ==> next.threads[queue[j]] == call.threads[queue[j]];
    assert next.threads[queue[i]] == t;
  }

  /** A local disk that only these calls have written to, and what they did to it. */
  class LocalDir {
    const remote: Remote
    var files: Files
    ghost var history: seq<Step>

    constructor (remote: Remote)
      ensures this.remote == remote && files == map[] && Valid()
    {
      this.remote := remote;
      files, history := map[], [];
    }

    /** Where the history leads. */
    ghost predicate Stands(call: Option<Call>)
      reads this
    {
      Run(remote, Empty, history) == State(files, call)
    }

    ghost predicate Valid()
      reads this
    {
      Stands(None)
    }

    /** Looking at one task: skip the file or submit a thread. */
    method LookAt(k: string, ghost call: Call) returns (skip: bool, ghost call': Call)
      requires Stands(Some(call)) && k in call.unseen && k in remote.objects
      modifies this`history
      ensures Stands(Some(call')) && call'.wanted == call.wanted && call'.unseen == call.unseen - {k}
      ensures skip <==> Skippable(remote, files, k)
      ensures call'.threads == if skip then call.threads else call.threads[k := Writing]
    {
      RunSnoc(remote, Empty, history, Look(k));
      history := history + [Look(k)];
      skip := Skippable(remote, files, k);
      call' := call.(unseen := call.unseen - {k});
      if !skip { call' := SetThread(call', k, Writing); }
    }

    /** `download_file` fills the `.part`; raises when there is no name to put it under. */
    method WritePart(k: string, transfer: Transfer, ghost call: Call) returns (ghost call': Call)
      requires Stands(Some(call)) && k in remote.objects && k in call.threads && call.threads[k] == Writing
      requires !transfer.Dies?
      modifies this
      ensures Stands(Some(call'))
      ensures call' == if transfer.Works? && remote.HasName(k) then SetThread(call, k, Fetched) else call
      ensures files == if !remote.HasName(k) then old(files)
        else old(files)[remote.Temp(k) := if transfer.Works? then remote.objects[k] else transfer.partial]
    {
      call' := call;
      if remote.HasName(k) {
        ghost var step := if transfer.Works? then Fetch(k) else Scribble(k, transfer.partial);
        RunSnoc(remote, Empty, history, step);
        history := history + [step];
        files := files[remote.Temp(k) := if transfer.Works? then remote.objects[k] else transfer.partial];
        if transfer.Works? { call' := SetThread(call, k, Fetched); }
      }
    }

    /** `tmp.replace(target)`. */
    method MoveIntoPlace(k: string, ghost call: Call) returns (ghost call': Call)
      requires Stands(Some(call)) && Named(remote, k) && k in call.threads && call.threads[k] == Fetched
      requires remote.Temp(k) in files
      modifies this
      ensures Stands(Some(call')) && call' == SetThread(call, k, Renamed)
      ensures files == Moved(old(files), remote.Temp(k), remote.Target(k))
    {
      RunSnoc(remote, Empty, history, Rename(k));
      history := history + [Rename(k)];
      files := Moved(files, remote.Temp(k), remote.Target(k));
      call' := SetThread(call, k, Renamed);
    }

    /** The `finally` clause after a failure. */
    method CleanUp(k: string, removed: bool, ghost call: Call) returns (ghost call': Call)
      requires Stands(Some(call)) && k in remote.objects && k in call.threads && call.threads[k] in {Writing, Fetched}
      modifies this
      ensures Stands(Some(call')) && call' == SetThread(call, k, Failed)
      ensures files == if removed && remote.HasName(k) then Remove(old(files), remote.Temp(k)) else old(files)
    {
      RunSnoc(remote, Empty, history, GiveUp(k, removed));
      history := history + [GiveUp(k, removed)];
      if removed && remote.HasName(k) { files := Remove(files, remote.Temp(k)); }
      call' := SetThread(call, k, Failed);
    }

    /** _download_one: write the `.part`, rename it over the target, and clean up when
        either fails. */
    method DownloadOne(k: string, transfer: Transfer, ghost call: Call) returns (ok: bool, ghost call': Call)
      requires Stands(Some(call)) && k in remote.objects && k in call.threads && call.threads[k] == Writing
      requires !transfer.Dies?
      modifies this
      ensures Stands(Some(call')) && call' == SetThread(call, k, if ok then Renamed else Failed)
      ensures ok <==> transfer.Works? && remote.IsFile(k)
      ensures ok ==> files == Remove(old(files), remote.Temp(k))[remote.Target(k) := remote.objects[k]]
      ensures !ok && (transfer.Works? || transfer.removed) ==>
        files == if remote.HasName(k) then Remove(old(files), remote.Temp(k)) else old(files)
    {
      ok := transfer.Works? && remote.IsFile(k);
      call' := WritePart(k, transfer, call);
      if ok {
        call' := MoveIntoPlace(k, call');
      } else {
        call' := CleanUp(k, transfer.Works? || transfer.removed, call');
      }
    }

    /** The process dies, leaving `partial` behind. */
    method DieWriting(k: string, partial: Bytes, ghost call: Call)
      requires Stands(Some(call)) && k in remote.objects && k in call.threads && call.threads[k] == Writing
      modifies this
      ensures Valid()
    {
      if remote.HasName(k) {
        RunSnoc(remote, Empty, history, Scribble(k, partial));
        history := history + [Scribble(k, partial)];
        files := files[remote.Temp(k) := partial];
      }
      RunSnoc(remote, Empty, history, Die);
      history := history + [Die];
    }

    /** The main thread goes through the tasks. */
    method LookAll(tasks: seq<string>, ghost start: Call) returns (queue: seq<string>, skipped: nat, ghost call: Call)
      requires Distinct(tasks) && forall k :: k in tasks ==> k in remote.objects
      requires Stands(Some(start)) && start == Call(ToSet(tasks), ToSet(tasks), map[])
      modifies this`history
      ensures Stands(Some(call)) && call.wanted == ToSet(tasks) && call.unseen == {}
      ensures call.threads == map k | k in queue :: Writing
      ensures Distinct(queue) && forall k :: k in queue <==> k in tasks && !Skippable(remote, files, k)
      ensures skipped + |queue| == |tasks|
      ensures forall k :: k in tasks ==>
        (k !in queue <==>
          remote.IsFile(k) && remote.objects[k] != [] && remote.Target(k) in files &&
          |files[remote.Target(k)]| == |remote.objects[k]|)
    {
      queue, skipped, call := [], 0, start;
      for i := 0 to |tasks|
        invariant Stands(Some(call)) && call.wanted == ToSet(tasks) && call.unseen == ToSet(tasks[i..])
        invariant call.threads == map k | k in queue :: Writing
        invariant Distinct(queue) && forall k :: k in queue <==> k in tasks[..i] && !Skippable(remote, files, k)
        invariant skipped + |queue| == i
      {
        var k := tasks[i];
        assert k in tasks && tasks[i..] == [k] + tasks[i + 1..] && tasks[..i + 1] == tasks[..i] + [k];
        assert k !in tasks[i + 1..] && k !in tasks[..i];
        assert ToSet(tasks[i..]) - {k} == ToSet(tasks[i + 1..]);
        var skip;
        skip, call := LookAt(k, call);
        if skip { skipped := skipped + 1; } else { queue := queue + [k]; }
      }
      assert tasks[..|tasks|] == tasks && tasks[|tasks|..] == [];
    }

    /** Nothing goes wrong with these names. */
    predicate Smooth(names: seq<string>, transfers: string -> Transfer) {
      forall i :: 0 <= i < |names| ==> remote.IsFile(names[i]) && transfers(names[i]).Works?
    }

    /** Every submitted name runs, failures included: leaving the pool waits for all. */
    method TransferAll(queue: seq<string>, transfers: string -> Transfer, ghost start: Call)
      returns (completed: nat, alive: bool, ghost call: Call)
      requires Distinct(queue) && (forall k :: k in queue ==> k in remote.objects)
      requires Stands(Some(start)) && start.threads == map k | k in queue :: Writing
      modifies this
      ensures !alive ==> Valid()
      ensures alive ==> Stands(Some(call)) && call.wanted == start.wanted && call.unseen == start.unseen
      ensures alive ==> call.threads.Keys == ToSet(queue)
      ensures alive ==> completed <= |queue| && (completed == |queue| <==> AllRenamed(queue, call, |queue|))
      ensures Smooth(queue, transfers) ==> alive && completed == |queue|
    {
      completed, alive, call := 0, true, start;
      for i := 0 to |queue|
        invariant Stands(Some(call)) && call.wanted == start.wanted && call.unseen == start.unseen
        invariant call.threads.Keys == ToSet(queue) && StillWriting(queue, call, i)
        invariant completed <= i && (completed == i <==> AllRenamed(queue, call, i))
        invariant Smooth(queue, transfers) ==> completed == i
      {
        var k := queue[i];
        assert k in queue;
        if transfers(k).Dies? {
          DieWriting(k, transfers(k).partial, call);
          return 0, false, call;
        }
        var ok;
        ghost var before := call;
        ok, call := DownloadOne(k, transfers(k), call);
        NextThread(queue, before, i, if ok then Renamed else Failed);
        if ok { completed := completed + 1; }
      }
    }

    lemma SmoothPart(tasks: seq<string>, queue: seq<string>, transfers: string -> Transfer)
      requires forall k :: k in queue ==> k in tasks
      ensures Smooth(tasks, transfers) ==> Smooth(queue, transfers)
    {
      forall i | 0 <= i < |queue| ensures queue[i] in tasks { assert queue[i] in queue; }
    }

    method Open(tasks: seq<string>) returns (ghost call: Call)
      requires Valid() && forall k :: k in tasks ==> k in remote.objects
      modifies this`history
      ensures call == Call(ToSet(tasks), ToSet(tasks), map[]) && Stands(Some(call))
    {
      RunSnoc(remote, Empty, history, Begin(ToSet(tasks)));
      history := history + [Begin(ToSet(tasks))];
      call := Call(ToSet(tasks), ToSet(tasks), map[]);
    }

    /** All threads are done: return, or pass on the first failure. */
    method Close(all: bool, ghost call: Call)
      requires Stands(Some(call)) && call.unseen == {}
      requires all <==> forall k :: k in call.threads ==> call.threads[k].Renamed?
      modifies this`history
      ensures Valid()
      ensures all && NoClash(remote) ==>
        forall k :: k in call.wanted ==>
          Named(remote, k) && remote.Target(k) in files && files[remote.Target(k)] == remote.objects[k]
    {
      if all && NoClash(remote) { ReturnedIsComplete(remote, history); }
      ghost var step := if all then Return else Die;
      RunSnoc(remote, Empty, history, step);
      history := history + [step];
    }

    /** download_dir on a disk that earlier calls may have left in any state: it returns
        only when every task is there, complete; skipped and fetched names add up to the
        tasks; and whatever happens, the disk is one the protocol reaches. */
    method DownloadDir(tasks: seq<string>, transfers: string -> Transfer) returns (result: Result<(nat, nat)>)
      requires Valid() && Distinct(tasks) && forall k :: k in tasks ==> k in remote.objects
      modifies this
      ensures Valid()
      ensures NoClash(remote) ==> FinalOk(remote, files)
      ensures result.Ok? ==> result.value.0 + result.value.1 == |tasks|
      ensures result.Ok? && NoClash(remote) ==>
        forall k :: k in tasks ==> remote.Target(k) in files && files[remote.Target(k)] == remote.objects[k]
      ensures Smooth(tasks, transfers) ==> result.Ok?
    {
      ghost var call := Open(tasks);
      var queue, skipped;
      queue, skipped, call := LookAll(tasks, call);
      var completed, alive;
      SmoothPart(tasks, queue, transfers);
      completed, alive, call := TransferAll(queue, transfers, call);
      if alive { Close(completed == |queue|, call); }
      if NoClash(remote) { ScopeOfAll(remote, Empty, history); }
      result := if alive && completed == |queue| then Ok((skipped, completed)) else Err;
    }
  }
}
