/** One entry of the directory cache: a metadata file and one directory per generation
    (pkg/kdo/dir_cache.go:34-89, pkg/kdo/yaml.go:12-44, pkg/kdo/repo.go:316-385). */
module DirCache {
  import opened Faults

  type Files = map<string, string>

  /** `Torn`: the metadata file was created but not written. */
  datatype MetaFile = Absent | Torn | Committed(etag: string, generation: nat)

  datatype Answer = Dir(dir: nat) | Error | Crashed

  /** How far something got. */
  datatype Progress = Going | Stopped | Dead

  /** What a loader does with the etag it is given: write into the target directory and return a new
      etag, return the old one, or fail. Any step that fails ends the load with an error. */
  datatype Step = TargetDir | Write(file: string, data: string)
  datatype Load = Load(steps: seq<Step>, result: LoadResult)
  datatype LoadResult = Etag(etag: string) | NotLoaded
  type Loader = string -> Load

  const GENERATIONS: nat := 0x1_0000_0000

  /** Generations are 32 bit wide and wrap around. */
  function Next(g: nat): (r: nat)
    ensures g < GENERATIONS ==> r < GENERATIONS && r != g
  {
    (g + 1) % GENERATIONS
  }

  /** The files after these steps. */
  function Written(files: Files, steps: seq<Step>): Files
    decreases |steps|
  {
    if steps == [] then files else
      match steps[0]
      case TargetDir => Written(files, steps[1..])
      case Write(file, data) => Written(files[file := data], steps[1..])
  }

  ghost predicate Holds(dir: Files, files: Files) {
    forall f :: f in files ==> f in dir && dir[f] == files[f]
  }

  lemma {:induction false} WrittenTwice(dir: Files, files: Files, steps: seq<Step>)
    requires Holds(dir, files)
    ensures Holds(Written(dir, steps), Written(files, steps))
    decreases |steps|
  {
    if steps != [] {
      match steps[0]
      case TargetDir => WrittenTwice(dir, files, steps[1..]);
      case Write(file, data) => WrittenTwice(dir[file := data], files[file := data], steps[1..]);
    }
  }

  lemma {:induction false} WrittenInTurn(files: Files, before: seq<Step>, step: Step)
    ensures Written(files, before + [step]) ==
            match step
            case TargetDir => Written(files, before)
            case Write(file, data) => Written(files, before)[file := data]
    decreases |before|
  {
    if before == [] {
      assert Written(files, [step]) ==
             match step case TargetDir => Written(files, []) case Write(f, d) => Written(files[f := d], []);
    } else {
      assert (before + [step])[1..] == before[1..] + [step];
      match before[0]
      case TargetDir => WrittenInTurn(files, before[1..], step);
      case Write(file, data) => WrittenInTurn(files[file := data], before[1..], step);
    }
  }

  /** How many operations the steps take when none of them fails. */
  function Ops(steps: seq<Step>): nat {
    if steps == [] then 0
    else
      var last := |steps| - 1;
      Ops(steps[..last]) + if steps[last].Write? || TargetDir !in steps[..last] then 1 else 0
  }

  /** The target directory is asked for before anything is written. */
  predicate Ordered(steps: seq<Step>) {
    forall i :: 0 <= i < |steps| && steps[i].Write? ==> TargetDir in steps[..i]
  }

  lemma {:induction false} OpsOfPrefix(steps: seq<Step>, i: nat)
    requires i <= |steps|
    ensures Ops(steps[..i]) <= Ops(steps)
    decreases |steps| - i
  {
    if i == |steps| {
      assert steps[..i] == steps;
    } else {
      OpsOfPrefix(steps, i + 1);
      assert steps[..i + 1][..i] == steps[..i];
    }
  }

  lemma OrderedPrefix(steps: seq<Step>, i: nat)
    requires i < |steps|
    ensures Ordered(steps[..i + 1]) <==> Ordered(steps[..i]) && (steps[i].Write? ==> TargetDir in steps[..i])
  {
    assert forall j :: 0 <= j <= i ==> steps[..i + 1][..j] == steps[..j];
    assert forall j :: 0 <= j < i ==> steps[..i][..j] == steps[..j];
  }

  /** The load finds everything as it was when it returned this etag. */
  predicate Confirms(load: Load, etag: string) {
    Ordered(load.steps) && load.result == Etag(etag)
  }

  /** The load brings something new. */
  predicate Replaces(load: Load, etag: string) {
    Ordered(load.steps) && TargetDir in load.steps && load.result.Etag? && load.result.etag != etag
  }

  /** The operations of the load end well, then the two that commit a new etag, and of those that
      remove what it replaced only dying matters. */
  ghost predicate Succeeds(script: seq<Outcome>, load: Load, etag: string, removal: nat) {
    var n := Ops(load.steps);
    || (Confirms(load, etag) && Completes(script, n))
    || (Replaces(load, etag) && Completes(script, n + 2) && !Dies(script[n + 2..], removal))
  }

  /** The new metadata file is created, and the next operation does not fill it. */
  ghost predicate Tears(script: seq<Outcome>, load: Load, etag: string) {
    var n := Ops(load.steps);
    Replaces(load, etag) && Completes(script, n + 1) && !Completes(script, n + 2)
  }

  /** What every file operation, and every sequence of them, does to the script. */
  ghost predicate Follows(before: seq<Outcome>, after: seq<Outcome>, p: Progress) {
    && (p == Dead ==> after == [])
    && (AllDone(before) ==> AllDone(after) && p != Stopped)
  }

  /** All generations but g are as they were. */
  ghost predicate SameBut(before: map<nat, Files>, after: map<nat, Files>, g: nat) {
    forall h :: h != g ==> (h in after <==> h in before) && (h in after ==> after[h] == before[h])
  }

  lemma StepTaken(start: Files, steps: seq<Step>, i: nat)
    requires i < |steps|
    ensures Written(start, steps[..i + 1]) ==
            match steps[i]
            case TargetDir => Written(start, steps[..i])
            case Write(file, data) => Written(start, steps[..i])[file := data]
    ensures Ops(steps[..i + 1]) == Ops(steps[..i]) + if steps[i].Write? || TargetDir !in steps[..i] then 1 else 0
    ensures Ops(steps[..i + 1]) <= Ops(steps)
    ensures Ordered(steps[..i + 1]) <==> Ordered(steps[..i]) && (steps[i].Write? ==> TargetDir in steps[..i])
    ensures Ordered(steps) ==> Ordered(steps[..i + 1])
    ensures TargetDir in steps[..i + 1] <==> TargetDir in steps[..i] || steps[i] == TargetDir
  {
    assert steps[..i + 1] == steps[..i] + [steps[i]] && steps[..i + 1][..i] == steps[..i];
    WrittenInTurn(start, steps[..i], steps[i]);
    OrderedPrefix(steps, i);
    OpsOfPrefix(steps, i + 1);
    assert forall j :: 0 <= j <= i ==> steps[..i + 1][..j] == steps[..j];
  }

  lemma CompletesInTurn(script: seq<Outcome>, n: nat, k: nat)
    ensures Completes(script, n + k) <==> Completes(script, n) && Completes(script[n..], k)
    ensures n + k <= |script| ==> script[n..][k..] == script[n + k..]
  {
    if n + k <= |script| {
      assert script[..n + k] == script[..n] + script[n..][..k];
      assert forall i :: 0 <= i < n ==> script[..n + k][i] == script[..n][i];
      assert forall i :: 0 <= i < k ==> script[..n + k][n + i] == script[n..][..k][i];
    }
  }

  lemma NotCompleted(script: seq<Outcome>, n: nat, k: nat, total: nat)
    requires n <= |script| && n + k <= total && !Completes(script[n..], k)
    ensures !Completes(script, total)
  {
    CompletesInTurn(script, n + k, total - n - k);
    CompletesInTurn(script, n, k);
  }

  lemma LoadCompleted(script: seq<Outcome>, load: Load, etag: string, removal: nat)
    ensures var n := Ops(load.steps);
            if Completes(script, n) && Replaces(load, etag) then
              && (Succeeds(script, load, etag, removal) <==>
                  Completes(script[n..], 2) && !Dies(script[n..][2..], removal))
              && (Tears(script, load, etag) <==> Completes(script[n..], 1) && !Completes(script[n..], 2))
            else
              && !Tears(script, load, etag)
              && (Succeeds(script, load, etag, removal) <==> Confirms(load, etag) && Completes(script, n))
  {
    CompletesInTurn(script, Ops(load.steps), 1);
    CompletesInTurn(script, Ops(load.steps), 2);
  }

  /** One more operation after the first n. */
  lemma RemovalStep(script: seq<Outcome>, n: nat, p: Progress)
    requires Completes(script, n)
    requires p == if script[n..] == [] then Dead else if script[n] == Done then Going else Stopped
    ensures p == Going ==> Completes(script, n + 1) && script[n..][1..] == script[n + 1..]
    ensures p == Dead ==> script[n..] == [] && AllDone(script)
    ensures p == Stopped ==> !AllDone(script)
  {
    if p == Going {
      assert script[..n + 1] == script[..n] + [script[n]];
    } else if p == Dead {
      assert script[..n] == script;
    }
  }

  // ---- What an open does, as a relation between states ----

  function CurrentOf(meta: MetaFile): nat {
    if meta.Committed? then meta.generation else 0
  }

  function TagOf(meta: MetaFile): string {
    if meta.Committed? then meta.etag else ""
  }

  /** One operation for each file and one for the directory. */
  ghost function RemovalOf(dirs: map<nat, Files>, g: nat): nat {
    if g in dirs then |dirs[g]| + 1 else 0
  }

  /** The directory of generation g as a load would find it. */
  ghost function Leftovers(dirs: map<nat, Files>, g: nat): Files {
    if g in dirs then dirs[g] else map[]
  }

  /** What is on disk, and what the load that returned the committed etag has written. */
  datatype Snapshot = Snapshot(meta: MetaFile, dirs: map<nat, Files>, committed: Files)

  /** A load was run, and committed under a new etag. */
  ghost predicate Refreshed(script: seq<Outcome>, load: Load, s: Snapshot, r: Answer, s': Snapshot) {
    var etag, g, n := TagOf(s.meta), CurrentOf(s.meta), Ops(load.steps);
    // When it succeeds, when it leaves metadata that cannot be read, and when it commits.
    && (r.Dir? <==> Succeeds(script, load, etag, RemovalOf(s.dirs, g)))
    && (s'.meta.Torn? <==> Tears(script, load, etag))
    && (s'.meta == s.meta || s'.meta.Torn? <==> !(Replaces(load, etag) && Completes(script, n + 2)))
    && (r == Error ==> s'.meta == s.meta || s'.meta.Torn?)
    && (AllDone(script) && (Confirms(load, etag) || Replaces(load, etag)) ==> r != Error)
    // Without a commit only the next generation is touched.
    && (s'.meta == s.meta || s'.meta.Torn? ==> SameBut(s.dirs, s'.dirs, Next(g)) && s'.committed == s.committed)
    && (s'.meta != s.meta && !s'.meta.Torn? ==> Replaced(script, load, s, s'))
    // Which directory is returned.
    && (r.Dir? && Confirms(load, etag) ==>
          && s'.meta == s.meta
          && (if TargetDir in load.steps then r.dir == Next(g) && r.dir in s'.dirs
              else r.dir == g && s'.dirs == s.dirs))
    && (r.Dir? && !Confirms(load, etag) ==> s'.meta == Committed(load.result.etag, Next(g)) && r.dir == Next(g))
  }

  /** The load was committed; what it replaced is gone if and only if all operations that remove it ended well. */
  ghost predicate Replaced(script: seq<Outcome>, load: Load, s: Snapshot, s': Snapshot)
    requires load.result.Etag?
  {
    var g, n := CurrentOf(s.meta), Ops(load.steps);
    && s'.meta == Committed(load.result.etag, Next(g)) && s'.committed == Written(map[], load.steps)
    && Next(g) in s'.dirs && s'.dirs[Next(g)] == Written(Leftovers(s.dirs, Next(g)), load.steps)
    && (forall h :: h != g && h != Next(g) ==> (h in s'.dirs <==> h in s.dirs))
    && (g !in s'.dirs <==> Completes(script, n + 2 + RemovalOf(s.dirs, g)))
  }

  lemma {:induction false} NotCommitted(script: seq<Outcome>, load: Load, s: Snapshot, r: Answer, s': Snapshot)
    requires s'.meta == s.meta && s'.committed == s.committed && SameBut(s.dirs, s'.dirs, Next(CurrentOf(s.meta)))
    requires !s.meta.Torn?
    requires r.Dir? <==> Confirms(load, TagOf(s.meta)) && Completes(script, Ops(load.steps))
    requires !r.Dir? ==> !(Replaces(load, TagOf(s.meta)) && Completes(script, Ops(load.steps)))
    requires r == Error && AllDone(script) ==> !Confirms(load, TagOf(s.meta)) && !Replaces(load, TagOf(s.meta))
    requires r.Dir? ==> if TargetDir in load.steps then r.dir == Next(CurrentOf(s.meta)) && r.dir in s'.dirs
                        else r.dir == CurrentOf(s.meta) && s'.dirs == s.dirs
    ensures Refreshed(script, load, s, r, s')
  {
    LoadCompleted(script, load, TagOf(s.meta), RemovalOf(s.dirs, CurrentOf(s.meta)));
    CompletesInTurn(script, Ops(load.steps), 2);
  }

  /** From the end of the load to the end of the open. */
  ghost predicate Finished(script: seq<Outcome>, etag: string, s: Snapshot, r: Answer, s': Snapshot) {
    var g := CurrentOf(s.meta);
    var removal := RemovalOf(s.dirs, g);
    && (r.Dir? <==> Completes(script, 2) && !Dies(script[2..], removal))
    && (r.Dir? ==> r.dir == Next(g))
    && (s'.meta.Torn? <==> Completes(script, 1) && !Completes(script, 2))
    && (r == Error ==> s'.meta == s.meta || s'.meta.Torn?)
    && (AllDone(script) ==> r != Error)
    && if Completes(script, 2) then
         && s'.meta == Committed(etag, Next(g))
         && SameBut(s.dirs, s'.dirs, g)
         && (g !in s'.dirs <==> Completes(script, 2 + removal))
       else (s'.meta == s.meta || s'.meta.Torn?) && s'.committed == s.committed && s'.dirs == s.dirs
  }

  lemma {:induction false} Commits(script: seq<Outcome>, load: Load, s: Snapshot, loaded: Snapshot, r: Answer,
      s': Snapshot)
    requires !s.meta.Torn? && CurrentOf(s.meta) < GENERATIONS
    requires Replaces(load, TagOf(s.meta)) && Completes(script, Ops(load.steps))
    requires loaded.meta == s.meta && loaded.committed == s.committed &&
             SameBut(s.dirs, loaded.dirs, Next(CurrentOf(s.meta)))
    requires Next(CurrentOf(s.meta)) in loaded.dirs
    requires loaded.dirs[Next(CurrentOf(s.meta))] == Written(Leftovers(s.dirs, Next(CurrentOf(s.meta))), load.steps)
    requires Finished(script[Ops(load.steps)..], load.result.etag, loaded, r, s')
    requires Completes(script[Ops(load.steps)..], 2) ==> s'.committed == Written(map[], load.steps)
    ensures Refreshed(script, load, s, r, s')
  {
    var g, n := CurrentOf(s.meta), Ops(load.steps);
    assert RemovalOf(loaded.dirs, g) == RemovalOf(s.dirs, g);
    LoadCompleted(script, load, TagOf(s.meta), RemovalOf(s.dirs, g));
    CompletesInTurn(script, n, 2);
    CompletesInTurn(script, n, 2 + RemovalOf(s.dirs, g));
    assert AllDone(script) ==> AllDone(script[n..]);
    if Completes(script, n + 2) {
      assert Replaced(script, load, s, s');
    }
  }

  class Entry {
    var meta: MetaFile
    var dirs: map<nat, Files>
    /** How the next file operations end; the process dies at the one after the last. */
    var script: seq<Outcome>

    /** What the load that returned the committed etag has written. */
    ghost var committed: Files

    constructor ()
      ensures Safe() && Now() == Snapshot(Absent, map[], map[])
    {
      meta, dirs, script, committed := Absent, map[], [], map[];
    }

    /** Committed metadata names a directory that is there and holds what was loaded with that etag. */
    ghost predicate Safe()
      reads this
    {
      meta.Committed? ==>
        meta.generation < GENERATIONS && meta.generation in dirs && Holds(dirs[meta.generation], committed)
    }

    function Generation(): nat
      reads this
    {
      CurrentOf(meta)
    }

    function ETag(): string
      reads this
    {
      TagOf(meta)
    }

    ghost function Now(): Snapshot
      reads this
    {
      Snapshot(meta, dirs, committed)
    }

    /** One file operation takes effect or fails; an error never comes after the effect. */
    method Operation() returns (p: Progress)
      modifies this`script
      ensures p == if old(script) == [] then Dead else if old(script)[0] == Done then Going else Stopped
      ensures script == if old(script) == [] then [] else old(script)[1..]
      ensures Follows(old(script), script, p)
    {
      if script == [] {
        return Dead;
      }
      p := if script[0] == Done then Going else Stopped;
      script := script[1..];
    }

    /** Runs a loader. The target directory is created when it is asked for first; a write that fails
        leaves a truncated file. */
    method RunLoad(steps: seq<Step>, target: nat) returns (p: Progress, ready: bool)
      modifies this`script, this`dirs
      ensures SameBut(old(dirs), dirs, target)
      ensures p == Going <==> Ordered(steps) && Completes(old(script), Ops(steps))
      ensures p == Going ==> (ready <==> TargetDir in steps) && script == old(script)[Ops(steps)..]
      ensures p == Going && ready ==>
                target in dirs && dirs[target] ==
                    Written(if target in old(dirs) then old(dirs)[target] else map[], steps)
      ensures !ready ==> dirs == old(dirs)
      ensures p == Dead ==> script == []
      ensures AllDone(old(script)) ==> AllDone(script) && (Ordered(steps) ==> p != Stopped)
    {
      p, ready := Going, false;
      ghost var start := if target in dirs then dirs[target] else map[];
      for i := 0 to |steps|
        invariant SameBut(old(dirs), dirs, target)
        invariant p == Going && (ready <==> TargetDir in steps[..i]) && Ordered(steps[..i])
        invariant Completes(old(script), Ops(steps[..i])) && script == old(script)[Ops(steps[..i])..]
        invariant ready ==> target in dirs && dirs[target] == Written(start, steps[..i])
        invariant !ready ==> dirs == old(dirs) && Written(start, steps[..i]) == start
      {
        StepTaken(start, steps, i);
        p, ready := RunStep(steps[i], target, ready);
        if p != Going {
          if Ordered(steps) {
            NotCompleted(old(script), Ops(steps[..i]), Ops(steps[..i + 1]) - Ops(steps[..i]), Ops(steps));
          }
          return;
        }
        CompletesInTurn(old(script), Ops(steps[..i]), Ops(steps[..i + 1]) - Ops(steps[..i]));
      }
      assert steps[..|steps|] == steps;
    }

    method RunStep(step: Step, target: nat, before: bool) returns (p: Progress, ready: bool)
      requires before ==> target in dirs
      modifies this`script, this`dirs
      ensures SameBut(old(dirs), dirs, target)
      ensures var n := if step.Write? || !before then 1 else 0;
              && (p == Going <==> (step.Write? ==> before) && Completes(old(script), n))
              && (p == Going ==> script == old(script)[n..])
      ensures p == Going ==> ready && target in dirs
      ensures p == Going ==>
                var files := if target in old(dirs) then old(dirs)[target] else map[];
                dirs[target] == match step { case TargetDir => files case Write(file, data) => files[file := data] }
      ensures !ready ==> dirs == old(dirs) && !before
      ensures p == Dead ==> script == []
      ensures AllDone(old(script)) ==> AllDone(script) && (p == Stopped ==> step.Write? && !before)
    {
      p, ready := Going, before;
      match step
      case TargetDir =>
        if !ready {
          p := Operation();
          if p == Going {
            ready := true;
            if target !in dirs {
              dirs := dirs[target := map[]];
            }
          }
        }
      case Write(file, data) =>
        if !ready {
          return Stopped, false;
        }
        p := Operation();
        if p != Dead {
          dirs := dirs[target := dirs[target][file := if p == Going then data else ""]];
        }
    }

    /** Removes a directory file by file; an error ends the attempt. */
    method RemoveAll(g: nat) returns (p: Progress)
      modifies this`script, this`dirs
      ensures SameBut(old(dirs), dirs, g)
      ensures g in dirs ==> g in old(dirs)
      ensures p == Going <==> Completes(old(script), old(RemovalOps(g)))
      ensures g !in dirs <==> p == Going
      ensures p == Dead <==> Dies(old(script), old(RemovalOps(g)))
      ensures Follows(old(script), script, p)
    {
      p := Going;
      ghost var made := 0;
      while g in dirs
        invariant SameBut(old(dirs), dirs, g)
        invariant g in dirs ==> g in old(dirs)
        invariant p == Going && Completes(old(script), made) && script == old(script)[made..]
        invariant made + RemovalOps(g) == old(RemovalOps(g))
        decreases RemovalOps(g)
      {
        p := RemoveOne(g);
        RemovalStep(old(script), made, p);
        if p != Going {
          NotCompleted(old(script), made, 1, old(RemovalOps(g)));
          return;
        }
        made := made + 1;
      }
    }

    /** Removes one file, or the directory once it is empty. */
    method RemoveOne(g: nat) returns (p: Progress)
      requires g in dirs
      modifies this`script, this`dirs
      ensures SameBut(old(dirs), dirs, g)
      ensures p == if old(script) == [] then Dead else if old(script)[0] == Done then Going else Stopped
      ensures script == if old(script) == [] then [] else old(script)[1..]
      ensures RemovalOps(g) == old(RemovalOps(g)) - if p == Going then 1 else 0
    {
      p := Operation();
      if p == Going {
        if dirs[g] == map[] {
          dirs := dirs - {g};
        } else {
          var file :| file in dirs[g];
          assert dirs[g].Keys == (dirs[g] - {file}).Keys + {file};
          dirs := dirs[g := dirs[g] - {file}];
        }
      }
    }

    /** One operation for each file and one for the directory. */
    ghost function RemovalOps(g: nat): nat
      reads this
    {
      RemovalOf(dirs, g)
    }

    /** Opens the entry. */
    method Open(loader: Loader) returns (r: Answer)
      requires Safe()
      modifies this
      ensures Safe()
      // Unless metadata can be read, nothing happens, and unreadable metadata stays.
      ensures old(meta.Torn?) || !Completes(old(script), 2) ==>
                r == (if Dies(old(script), 2) then Crashed else Error) && Now() == old(Now())
      ensures !old(meta.Torn?) && Completes(old(script), 2) ==>
                Refreshed(old(script)[2..], loader(old(ETag())), old(Now()), r, Now())
      // The directory returned is missing only when a loader confirms the empty etag of an entry that never was.
      ensures r.Dir? ==>
                (r.dir !in dirs <==>
                 old(meta.Absent?) && 0 !in old(dirs) && loader("").result == Etag("") &&
                     TargetDir !in loader("").steps)
      ensures r == Crashed ==> script == []
    {
      var p := ReadMeta();
      if p == Dead {
        return Crashed;
      }
      if p == Stopped || meta.Torn? {
        return Error;
      }
      r := Refresh(loader(ETag()));
    }

    /** Makes the directory of the entry, and looks for the metadata in it. */
    method ReadMeta() returns (p: Progress)
      modifies this`script
      ensures p == Going <==> Completes(old(script), 2)
      ensures p == Going ==> script == old(script)[2..]
      ensures p == Dead <==> Dies(old(script), 2)
      ensures Follows(old(script), script, p)
    {
      CompletesInTurn(script, 1, 1);
      p := Operation();
      if p == Going {
        p := Operation();
      }
    }

    /** Runs the load and commits what it has written under a new etag. */
    method Refresh(load: Load) returns (r: Answer)
      requires Safe() && !meta.Torn?
      modifies this
      ensures Safe() && Refreshed(old(script), load, old(Now()), r, Now())
      ensures r == Crashed ==> script == []
    {
      ghost var before, operations := Now(), script;
      var oldDir, newDir := Generation(), Next(Generation());
      var p, ready := RunLoad(load.steps, newDir);
      if p != Going || load.result.NotLoaded? || (load.result.etag != ETag() && !ready) {
        r := if p == Dead then Crashed else Error;
        NotCommitted(operations, load, before, r, Now());
        return;
      }
      if load.result.etag == ETag() {
        r := Dir(if ready then newDir else oldDir);
        NotCommitted(operations, load, before, r, Now());
        return;
      }
      WrittenTwice(Leftovers(before.dirs, newDir), map[], load.steps);
      ghost var loaded := Now();
      r := Replace(load.result.etag, newDir, Written(map[], load.steps));
      Commits(operations, load, before, loaded, r, Now());
    }

    /** Commits a new etag and removes the directory of the old one. */
    method Replace(etag: string, dir: nat, ghost loaded: Files) returns (r: Answer)
      requires Safe() && !meta.Torn?
      requires dir < GENERATIONS && dir in dirs && Holds(dirs[dir], loaded) && dir == Next(Generation()) != Generation()
      modifies this
      ensures Safe()
      ensures Finished(old(script), etag, old(Now()), r, Now())
      ensures Completes(old(script), 2) ==> committed == loaded
      ensures r == Crashed ==> script == []
    {
      var oldDir := Generation();
      CompletesInTurn(script, 2, RemovalOps(oldDir));
      r := Commit(etag, dir, loaded);
      if r.Dir? {
        var p := RemoveAll(oldDir);
        if p == Dead {
          r := Crashed;
        }
      }
    }

    /** Writes the metadata: the file is created, which empties it, and then filled by one write, which is
        taken to put all of it there or nothing. */
    method Commit(etag: string, dir: nat, ghost loaded: Files) returns (r: Answer)
      requires Safe() && !meta.Torn?
      requires dir < GENERATIONS && dir in dirs && Holds(dirs[dir], loaded)
      modifies this`meta, this`script, this`committed
      ensures Safe()
      ensures r.Dir? ==> r.dir == dir && meta == Committed(etag, dir) && committed == loaded
      ensures !r.Dir? ==> (meta == old(meta) || meta.Torn?) && committed == old(committed)
      ensures r.Dir? <==> Completes(old(script), 2)
      ensures r.Dir? ==> script == old(script)[2..]
      ensures meta.Torn? <==> Completes(old(script), 1) && !Completes(old(script), 2)
      ensures r == Crashed ==> script == []
      ensures AllDone(old(script)) ==> AllDone(script) && r != Error
    {
      CompletesInTurn(script, 1, 1);
      var p := Operation();
      if p == Going {
        meta := Torn;
        p := Operation();
      }
      if p != Going {
        return if p == Dead then Crashed else Error;
      }
      meta, committed := Committed(etag, dir), loaded;
      r := Dir(dir);
    }
  }

  // ---- Following an origin ----

  /** The files of one version, in the order in which they are unpacked. */
  type Listing = seq<(string, string)>

  function Writes(listing: Listing): seq<Step> {
    seq(|listing|, i requires 0 <= i < |listing| => Write(listing[i].0, listing[i].1))
  }

  function Content(listing: Listing): Files {
    Written(map[], Writes(listing))
  }

  /** The i-th file of a listing is the last one of its name. */
  ghost predicate IsLast(listing: Listing, i: nat)
    requires i < |listing|
  {
    forall j :: i < j < |listing| ==> listing[j].0 != listing[i].0
  }

  ghost predicate Lists(listing: Listing, name: string) {
    exists i :: 0 <= i < |listing| && listing[i].0 == name
  }

  /** These files hold everything that is listed; where a name is listed twice, what comes last. */
  ghost predicate HoldsListing(files: Files, listing: Listing) {
    forall i :: 0 <= i < |listing| && IsLast(listing, i) ==>
      listing[i].0 in files && files[listing[i].0] == listing[i].1
  }

  /** And nothing else. */
  ghost predicate IsListing(files: Files, listing: Listing) {
    HoldsListing(files, listing) && forall f :: f in files ==> Lists(listing, f)
  }

  /** One more file replaces an earlier one of its name. */
  lemma {:induction false} OneMoreListed(files: Files, before: Listing, name: string, data: string)
    requires IsListing(files, before)
    ensures IsListing(files[name := data], before + [(name, data)])
  {
    var listing, after := before + [(name, data)], files[name := data];
    forall i | 0 <= i < |listing| && IsLast(listing, i)
      ensures listing[i].0 in after && after[listing[i].0] == listing[i].1
    {
      if i < |before| {
        assert before[i] == listing[i] && listing[|before|].0 != listing[i].0;
        assert forall j :: i < j < |before| ==> before[j] == listing[j];
        assert IsLast(before, i);
      }
    }
    forall f | f in after
      ensures Lists(listing, f)
    {
      if f == name {
        assert listing[|before|].0 == f;
      } else {
        var i :| 0 <= i < |before| && before[i].0 == f;
        assert listing[i].0 == f;
      }
    }
  }

  /** What an unpacked version comes to. */
  lemma {:induction false} ContentIsListing(listing: Listing)
    ensures IsListing(Content(listing), listing)
    decreases |listing|
  {
    if listing != [] {
      var last := |listing| - 1;
      var before := listing[..last];
      var (name, data) := listing[last];
      ContentIsListing(before);
      assert listing == before + [(name, data)];
      assert Writes(listing) == Writes(before) + [Write(name, data)];
      WrittenInTurn(map[], Writes(before), Write(name, data));
      OneMoreListed(Content(before), before, name, data);
    }
  }

  /** There is always a last one of each name that is listed. */
  lemma {:induction false} SomeIsLast(listing: Listing, i: nat) returns (j: nat)
    requires i < |listing|
    ensures i <= j < |listing| && listing[j].0 == listing[i].0 && IsLast(listing, j)
    decreases |listing| - i
  {
    if IsLast(listing, i) {
      j := i;
    } else {
      var k :| i < k < |listing| && listing[k].0 == listing[i].0;
      j := SomeIsLast(listing, k);
    }
  }

  /** So there is one set of files that is a listing, and what holds a listing holds its content. */
  lemma {:induction false} ListingIsContent(files: Files, listing: Listing)
    ensures HoldsListing(files, listing) <==> Holds(files, Content(listing))
    ensures IsListing(files, listing) <==> files == Content(listing)
  {
    var content := Content(listing);
    ContentIsListing(listing);
    forall f | f in content
      ensures HoldsListing(files, listing) ==> f in files && files[f] == content[f]
    {
      var i :| 0 <= i < |listing| && listing[i].0 == f;
      var j := SomeIsLast(listing, i);
    }
    if Holds(files, content) {
      assert HoldsListing(files, listing);
    }
    if IsListing(files, listing) {
      forall f | f in files
        ensures f in content
      {
        var i :| 0 <= i < |listing| && listing[i].0 == f;
        var j := SomeIsLast(listing, i);
      }
      assert files == content;
    }
  }

  /** Loads the version of this etag unless it is the one already there. */
  function Conditional(etag: string, listing: Listing): Loader {
    (known: string) => if known == etag then Load([], Etag(etag)) else Load([TargetDir] + Writes(listing), Etag(etag))
  }

  /** The committed etag identifies what is in its directory. */
  ghost predicate Agrees(e: Entry, contents: string -> Listing)
    reads e
  {
    e.Safe() && (e.meta.Committed? ==> e.meta.etag != "" && e.committed == Content(contents(e.meta.etag)))
  }

  /** Two operations to read the metadata, one for the directory, one for each file, and two to write the metadata. */
  function OpsToCommit(contents: string -> Listing, etag: string): nat {
    |contents(etag)| + 5
  }

  /** A new version was committed: the origin has another etag, and all operations up to that ended well. */
  ghost predicate NewVersion(contents: string -> Listing, open: (string, seq<Outcome>), s: Snapshot) {
    !s.meta.Torn? && TagOf(s.meta) != open.0 && Completes(open.1, OpsToCommit(contents, open.0))
  }

  /** What one open of the origin did. */
  ghost predicate Opened(contents: string -> Listing, open: (string, seq<Outcome>), s: Snapshot, r: Answer,
      s': Snapshot) {
    var (etag, script) := open;
    var g, n := CurrentOf(s.meta), OpsToCommit(contents, etag);
    var removal := RemovalOf(s.dirs, g);
    // When it succeeds, when it leaves metadata that cannot be read, and when it commits.
    && (r.Dir? <==> !s.meta.Torn? && if TagOf(s.meta) == etag then Completes(script, 2)
                                     else Completes(script, n) && !Dies(script[n..], removal))
    && (s'.meta.Torn? <==> s.meta.Torn? ||
                           (TagOf(s.meta) != etag && Completes(script, n - 1) && !Completes(script, n)))
    && (s'.meta == s.meta || s'.meta.Torn? <==> !NewVersion(contents, open, s))
    && (s.meta.Torn? ==> r == if Dies(script, 2) then Crashed else Error)
    && (AllDone(script) && !s.meta.Torn? ==> r != Error)
    // The directory that is returned is the one the metadata names.
    && (r.Dir? ==> s'.meta == Committed(etag, r.dir) && r.dir in s'.dirs)
    // Without a new version only the next generation is touched.
    && (!NewVersion(contents, open, s) ==> SameBut(s.dirs, s'.dirs, Next(g)))
    && (NewVersion(contents, open, s) ==>
          && s'.meta == Committed(etag, Next(g))
          && Next(g) in s'.dirs && s'.dirs[Next(g)] == Written(Leftovers(s.dirs, Next(g)), Writes(contents(etag)))
          && (forall h :: h != g && h != Next(g) ==> (h in s'.dirs <==> h in s.dirs))
          && (g !in s'.dirs <==> Completes(script, n + removal)))
  }

  /** Opens the entry for the version that the origin has now. */
  method OpenOrigin(e: Entry, contents: string -> Listing, etag: string) returns (r: Answer)
    requires Agrees(e, contents) && etag != ""
    modifies e
    ensures Agrees(e, contents)
    ensures Opened(contents, (etag, old(e.script)), old(e.Now()), r, e.Now())
    // Every file of the origin is there, with its data.
    ensures r.Dir? ==> HoldsListing(e.dirs[r.dir], contents(etag))
  {
    ghost var s, script, load := e.Now(), e.script, Conditional(etag, contents(etag))(e.ETag());
    LoadOfOrigin(contents(etag), etag, e.ETag(), Leftovers(e.dirs, Next(e.Generation())));
    r := e.Open(Conditional(etag, contents(etag)));
    if s.meta.Torn? || !Completes(script, 2) {
      NotOpened(contents, etag, script, s, r);
    } else {
      OpenedAfterwards(contents, etag, script, load, s, r, e.Now());
    }
    if r.Dir? {
      ListingIsContent(e.dirs[r.dir], contents(etag));
    }
  }

  lemma {:induction false} NotOpened(contents: string -> Listing, etag: string, script: seq<Outcome>, s: Snapshot,
      r: Answer)
    requires s.meta.Torn? || !Completes(script, 2)
    requires r == if Dies(script, 2) then Crashed else Error
    ensures Opened(contents, (etag, script), s, r, s)
  {
    CompletesInTurn(script, 2, |contents(etag)| + 2);
    CompletesInTurn(script, 2, |contents(etag)| + 3);
    assert AllDone(script) && |script| >= 2 ==> Completes(script, 2);
  }

  /** What follows the reading of the metadata, counted from the start. */
  lemma {:induction false} OpenedAfterwards(contents: string -> Listing, etag: string, script: seq<Outcome>, load: Load,
      s: Snapshot, r: Answer, s': Snapshot)
    requires !s.meta.Torn? && Completes(script, 2) && Refreshed(script[2..], load, s, r, s')
    requires LoadsOrigin(contents(etag), etag, TagOf(s.meta), Leftovers(s.dirs, Next(CurrentOf(s.meta))), load)
    requires r.Dir? && Confirms(load, TagOf(s.meta)) ==> r.dir in s'.dirs && s.meta.Committed?
    ensures Opened(contents, (etag, script), s, r, s')
  {
    assert AllDone(script) ==> AllDone(script[2..]);
    if TagOf(s.meta) == etag {
      KnownVersion(contents, etag, script, load, s, r, s');
    } else {
      OtherVersion(contents, etag, script, load, s, r, s');
    }
  }

  lemma {:induction false} KnownVersion(contents: string -> Listing, etag: string, script: seq<Outcome>, load: Load,
      s: Snapshot, r: Answer, s': Snapshot)
    requires !s.meta.Torn? && Completes(script, 2) && Refreshed(script[2..], load, s, r, s') && TagOf(s.meta) == etag
    requires LoadsOrigin(contents(etag), etag, etag, Leftovers(s.dirs, Next(CurrentOf(s.meta))), load)
    requires r.Dir? ==> r.dir in s'.dirs && s.meta.Committed?
    requires AllDone(script) ==> AllDone(script[2..])
    ensures Opened(contents, (etag, script), s, r, s')
  {
  }

  lemma {:induction false} OtherVersion(contents: string -> Listing, etag: string, script: seq<Outcome>, load: Load,
      s: Snapshot, r: Answer, s': Snapshot)
    requires !s.meta.Torn? && Completes(script, 2) && Refreshed(script[2..], load, s, r, s') && TagOf(s.meta) != etag
    requires LoadsOrigin(contents(etag), etag, TagOf(s.meta), Leftovers(s.dirs, Next(CurrentOf(s.meta))), load)
    requires AllDone(script) ==> AllDone(script[2..])
    ensures Opened(contents, (etag, script), s, r, s')
  {
    var n, removal := OpsToCommit(contents, etag), RemovalOf(s.dirs, CurrentOf(s.meta));
    assert Ops(load.steps) == n - 4;
    CompletesInTurn(script, 2, n - 3);
    CompletesInTurn(script, 2, n - 2);
    CompletesInTurn(script, 2, n - 2 + removal);
    var later := script[2..];
    assert Succeeds(later, load, TagOf(s.meta), removal) <==> Completes(script, n) && !Dies(script[n..], removal);
    assert Tears(later, load, TagOf(s.meta)) <==> Completes(script, n - 1) && !Completes(script, n);
    assert Completes(later, n - 2 + removal) <==> Completes(script, n + removal);
    var open := (etag, script);
    if Completes(script, n) {
      assert Replaced(later, load, s, s') && NewVersion(contents, open, s);
      assert CurrentOf(s.meta) !in s'.dirs <==> Completes(script, n + removal);
      assert r.Dir? ==> s'.meta == Committed(etag, r.dir) && r.dir in s'.dirs;
    } else {
      assert !NewVersion(contents, open, s);
      assert s'.meta == s.meta || s'.meta.Torn?;
    }
  }

  ghost predicate LoadsOrigin(listing: Listing, etag: string, known: string, leftovers: Files, load: Load) {
    && load.result == Etag(etag)
    && if known == etag then Ops(load.steps) == 0 && Confirms(load, known) && TargetDir !in load.steps
       else
         && Ops(load.steps) == |listing| + 1 && Replaces(load, known)
         && Written(leftovers, load.steps) == Written(leftovers, Writes(listing))
         && Written(map[], load.steps) == Content(listing)
  }

  lemma {:induction false} LoadOfOrigin(listing: Listing, etag: string, known: string, leftovers: Files)
    ensures LoadsOrigin(listing, etag, known, leftovers, Conditional(etag, listing)(known))
  {
    TargetDirFirst(map[], Writes(listing));
    TargetDirFirst(leftovers, Writes(listing));
    OpsOfWrites(listing);
  }

  lemma {:induction false} OpsOfWrites(listing: Listing)
    ensures Ops([TargetDir] + Writes(listing)) == 1 + |listing| && Ordered([TargetDir] + Writes(listing))
    decreases |listing|
  {
    var steps := [TargetDir] + Writes(listing);
    assert forall i :: 0 < i < |steps| ==> steps[..i][0] == TargetDir;
    if listing != [] {
      var last := |listing| - 1;
      OpsOfWrites(listing[..last]);
      assert steps[..|steps| - 1] == [TargetDir] + Writes(listing[..last]);
    } else {
      assert steps[..0] == [];
    }
  }

  lemma {:induction false} TargetDirFirst(files: Files, steps: seq<Step>)
    ensures Written(files, [TargetDir] + steps) == Written(files, steps)
  {
    assert ([TargetDir] + steps)[1..] == steps;
  }

  // ---- Histories ----

  /** Committed metadata names a directory that holds the version of its etag. */
  ghost predicate Sound(s: Snapshot, contents: string -> Listing) {
    s.meta.Committed? ==>
      && s.meta.generation < GENERATIONS && s.meta.generation in s.dirs && s.meta.etag != ""
      && HoldsListing(s.dirs[s.meta.generation], contents(s.meta.etag))
  }

  /** Opens in turn, while the origin changes, loads fail and processes die. */
  method History(contents: string -> Listing, opens: seq<(string, seq<Outcome>)>)
    returns (e: Entry, answers: seq<Answer>, ghost trace: seq<Snapshot>)
    requires forall i :: 0 <= i < |opens| ==> opens[i].0 != ""
    ensures fresh(e) && Traced(contents, opens, answers, trace) && trace[|opens|] == e.Now()
    ensures forall i :: 0 <= i <= |opens| ==> Sound(trace[i], contents)
  {
    e := new Entry();
    answers, trace := [], [e.Now()];
    for i := 0 to |opens|
      invariant fresh(e) && Agrees(e, contents) && |answers| == i && |trace| == i + 1
      invariant trace[0] == Snapshot(Absent, map[], map[]) && trace[i] == e.Now()
      invariant forall j :: 0 <= j < i ==> Opened(contents, opens[j], trace[j], answers[j], trace[j + 1])
      invariant forall j :: 0 <= j <= i ==> Sound(trace[j], contents)
    {
      var r := OpenAgain(e, contents, opens[i]);
      answers, trace := answers + [r], trace + [e.Now()];
    }
  }

  /** The states of an entry from the beginning, related by opens. */
  ghost predicate Traced(contents: string -> Listing, opens: seq<(string, seq<Outcome>)>, answers: seq<Answer>,
      trace: seq<Snapshot>) {
    && |answers| == |opens| && |trace| == |opens| + 1
    && trace[0] == Snapshot(Absent, map[], map[])
    && forall i :: 0 <= i < |opens| ==> Opened(contents, opens[i], trace[i], answers[i], trace[i + 1])
  }

  method OpenAgain(e: Entry, contents: string -> Listing, open: (string, seq<Outcome>)) returns (r: Answer)
    requires Agrees(e, contents) && open.0 != ""
    modifies e
    ensures Agrees(e, contents) && Sound(e.Now(), contents)
    ensures Opened(contents, open, old(e.Now()), r, e.Now())
  {
    e.script := open.1;
    r := OpenOrigin(e, contents, open.0);
    if e.meta.Committed? {
      ListingIsContent(e.dirs[e.meta.generation], contents(e.meta.etag));
    }
  }

  // ---- Which generations exist, and what is in the current one ----

  /** Only the current generation and the next one exist. */
  ghost predicate OnlyTwo(s: Snapshot) {
    && CurrentOf(s.meta) < GENERATIONS
    && forall g :: g in s.dirs ==> g == CurrentOf(s.meta) || g == Next(CurrentOf(s.meta))
  }

  /** Nothing was replaced, or what was replaced could be removed. */
  ghost predicate Cleared(contents: string -> Listing, open: (string, seq<Outcome>), s: Snapshot) {
    NewVersion(contents, open, s) ==>
      Completes(open.1, OpsToCommit(contents, open.0) + RemovalOf(s.dirs, CurrentOf(s.meta)))
  }

  lemma {:induction false} TidyStep(contents: string -> Listing, open: (string, seq<Outcome>), s: Snapshot, r: Answer,
      s': Snapshot)
    requires Opened(contents, open, s, r, s') && OnlyTwo(s) && !s'.meta.Torn?
    ensures OnlyTwo(s') <==> Cleared(contents, open, s)
  {
    var g := CurrentOf(s.meta);
    assert Next(Next(g)) != g && Next(g) < GENERATIONS;
  }

  /** Whatever loads fail and wherever processes die, as long as metadata can be read there are never more than two
      generations, if and only if every removal of a replaced generation came to its end. */
  lemma {:induction false} TidyThroughout(contents: string -> Listing, opens: seq<(string, seq<Outcome>)>,
      answers: seq<Answer>, trace: seq<Snapshot>, n: nat)
    requires Traced(contents, opens, answers, trace) && n <= |opens|
    requires forall i :: 0 <= i <= n ==> !trace[i].meta.Torn?
    ensures (forall i :: 0 <= i <= n ==> OnlyTwo(trace[i])) <==>
            forall i :: 0 <= i < n ==> Cleared(contents, opens[i], trace[i])
  {
    if n > 0 {
      TidyThroughout(contents, opens, answers, trace, n - 1);
      if OnlyTwo(trace[n - 1]) {
        TidyStep(contents, opens[n - 1], trace[n - 1], answers[n - 1], trace[n]);
      }
    }
  }

  /** The committed directory holds the version of its etag and nothing else. */
  ghost predicate IsExact(s: Snapshot, contents: string -> Listing) {
    s.meta.Committed? ==> s.meta.generation in s.dirs && IsListing(s.dirs[s.meta.generation], contents(s.meta.etag))
  }

  /** A new version found no file in its directory that it does not have itself. */
  ghost predicate FoundClean(contents: string -> Listing, open: (string, seq<Outcome>), s: Snapshot) {
    NewVersion(contents, open, s) ==>
      forall f :: f in Leftovers(s.dirs, Next(CurrentOf(s.meta))) ==> Lists(contents(open.0), f)
  }

  lemma {:induction false} WrittenOver(files: Files, steps: seq<Step>)
    ensures Written(files, steps) == files + Written(map[], steps)
    decreases |steps|
  {
    if steps == [] {
      assert files + map[] == files;
    } else {
      match steps[0]
      case TargetDir => WrittenOver(files, steps[1..]);
      case Write(file, data) =>
        var rest := Written(map[], steps[1..]);
        WrittenOver(files[file := data], steps[1..]);
        WrittenOver(map[][file := data], steps[1..]);
        assert files[file := data] + rest == files + (map[][file := data] + rest);
    }
  }

  lemma {:induction false} ContentNames(listing: Listing)
    ensures forall f :: f in Content(listing) <==> Lists(listing, f)
  {
    ContentIsListing(listing);
    forall f | Lists(listing, f)
      ensures f in Content(listing)
    {
      var i :| 0 <= i < |listing| && listing[i].0 == f;
      var j := SomeIsLast(listing, i);
    }
  }

  lemma {:induction false} ExactStep(contents: string -> Listing, open: (string, seq<Outcome>), s: Snapshot, r: Answer,
      s': Snapshot)
    requires Opened(contents, open, s, r, s') && IsExact(s, contents) && CurrentOf(s.meta) < GENERATIONS
    ensures IsExact(s', contents) <==> FoundClean(contents, open, s)
  {
    var leftovers, files := Leftovers(s.dirs, Next(CurrentOf(s.meta))), Content(contents(open.0));
    WrittenOver(leftovers, Writes(contents(open.0)));
    ListingIsContent(leftovers + files, contents(open.0));
    ContentNames(contents(open.0));
    if leftovers.Keys <= files.Keys {
      assert leftovers + files == files;
    } else {
      assert (leftovers + files).Keys != files.Keys;
    }
  }

  /** The committed directory is always exact if and only if every new version found its directory clean. */
  lemma {:induction false} ExactThroughout(contents: string -> Listing, opens: seq<(string, seq<Outcome>)>,
      answers: seq<Answer>, trace: seq<Snapshot>, n: nat)
    requires Traced(contents, opens, answers, trace) && n <= |opens|
    requires forall i :: 0 <= i <= n ==> Sound(trace[i], contents)
    ensures (forall i :: 0 <= i <= n ==> IsExact(trace[i], contents)) <==>
            forall i :: 0 <= i < n ==> FoundClean(contents, opens[i], trace[i])
  {
    if n > 0 {
      ExactThroughout(contents, opens, answers, trace, n - 1);
      if IsExact(trace[n - 1], contents) {
        ExactStep(contents, opens[n - 1], trace[n - 1], answers[n - 1], trace[n]);
      }
    }
  }

  /** A successful open of an exact entry returns the current files of the origin and nothing else, whether it has
      loaded them or not; of any entry, at least all of them. */
  lemma {:induction false} OpenedIsCurrent(contents: string -> Listing, open: (string, seq<Outcome>), s: Snapshot,
      r: Answer, s': Snapshot)
    requires Opened(contents, open, s, r, s') && r.Dir? && Sound(s', contents)
    ensures r.dir in s'.dirs && HoldsListing(s'.dirs[r.dir], contents(open.0))
    ensures IsExact(s', contents) <==> IsListing(s'.dirs[r.dir], contents(open.0))
  {
  }

  // ---- Two runs ----

  /** Unreadable metadata: the process dies right after it has created the file, and no open helps any more. */
  method TornForGood(script: seq<Outcome>) returns (r: Answer, r': Answer, e: Entry)
    ensures r == Crashed && e.meta.Torn? && r' == if Dies(script, 2) then Crashed else Error
  {
    var contents := (etag: string) => [("file", "data")];
    e := new Entry();
    e.script := [Done, Done, Done, Done, Done];
    r := OpenOrigin(e, contents, "v1");
    e.script := script;
    r' := OpenOrigin(e, contents, "v2");
  }

  /** A missing directory: the loader confirms the empty etag of an entry that never was. */
  method MissingDirectory() returns (r: Answer, e: Entry)
    ensures r == Dir(0) && e.dirs == map[]
  {
    var load := Load([], Etag(""));
    e := new Entry();
    e.script := [Done, Done];
    assert Ops(load.steps) == 0 && Confirms(load, e.ETag());
    r := e.Open((known: string) => load);
  }
}
