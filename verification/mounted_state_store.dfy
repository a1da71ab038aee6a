/** Files as the addon sees them, the write of `atomic_write` with every way it
    can fail, and the desired-state update built on it. */
module MountedStateStore {
  import opened DesiredState
  import opened DesiredProtocol

  datatype ReplaceAnswer = Replaced | Busy | Refused

  /** What the operating system answers during one write; `true` means the call raises. */
  datatype Faults = Faults(
    make: bool,          // making the temporary file
    write: bool,         // filling it
    chmodTemp: bool,
    replace: ReplaceAnswer,
    openTarget: bool,    // fallback: opening the target, before it is truncated
    fill: bool,          // fallback: filling the target, after it was truncated
    chmodTarget: bool,
    unlink: bool,        // fallback: removing the temporary file at the end
    cleanUp: bool)       // removing the temporary file after a failure

  /** The write went through to the in-place fallback. */
  predicate FellBack(f: Faults) {
    !f.make && !f.write && !f.chmodTemp && f.replace.Busy?
  }

  /** The write got as far as changing the target. */
  predicate Reached(f: Faults) {
    (FellBack(f) && !f.openTarget) || (!f.make && !f.write && !f.chmodTemp && f.replace.Replaced?)
  }

  /** What the target holds once the write has changed it. */
  function Result(f: Faults, content: Payload): File {
    if f.replace.Busy? && f.fill then Garbage else Doc(content)
  }

  predicate WriteReturns(f: Faults) {
    Reached(f) && (f.replace.Busy? ==> !f.fill && !f.chmodTarget && !f.unlink)
  }

  /** The temporary file stays behind. */
  predicate Litters(f: Faults) {
    !f.make && !WriteReturns(f) && f.cleanUp
  }

  /** All files after the write. */
  function FilesAfter(f: Faults, files: map<string, File>, path: string, content: Payload,
                      temp: string): map<string, File>
  {
    var target := if Reached(f) then files[path := Result(f, content)] else files;
    if Litters(f) then target[temp := if f.write then Garbage else Doc(content)] else target
  }

  function FileAt(files: map<string, File>, path: string): File {
    if path in files then files[path] else Missing
  }

  /** What the target holds after the write. */
  function TargetAfter(f: Faults, before: File, content: Payload): File {
    if Reached(f) then Result(f, content) else before
  }

  /** A write that returns has stored the content and nothing else; one that raises has
      left the target as it was, unless it had fallen back to writing in place, and then
      at worst the target is unreadable, which is so exactly when filling it broke off. */
  lemma WriteOutcome(f: Faults, files: map<string, File>, path: string, content: Payload, temp: string)
    requires temp != path && temp !in files
    ensures var after := FilesAfter(f, files, path, content, temp);
      && FileAt(after, path) == TargetAfter(f, FileAt(files, path), content)
      && (WriteReturns(f) ==> after == files[path := Doc(content)])
      && (!WriteReturns(f) && FileAt(after, path) != FileAt(files, path) ==>
            FellBack(f) && FileAt(after, path) in {Garbage, Doc(content)})
      && (FileAt(files, path) != Garbage ==>
            (FileAt(after, path) == Garbage <==> FellBack(f) && !f.openTarget && f.fill))
      && after - {path, temp} == files - {path, temp}
      && (temp in after <==> Litters(f))
  {
  }

  class FileSystem {
    var files: map<string, File>

    constructor (files: map<string, File>)
      ensures this.files == files
    {
      this.files := files;
    }

    function Get(path: string): File
      reads this
    {
      FileAt(files, path)
    }

    method Unlink(path: string, raises: bool)
      modifies this
      ensures files == if raises then old(files) else old(files) - {path}
    {
      if !raises {
        files := files - {path};
      }
    }

    method AtomicWrite(path: string, content: Payload, temp: string, faults: Faults) returns (ok: bool)
      requires temp != path && temp !in files
      modifies this
      ensures ok == WriteReturns(faults)
      ensures ok <==>
        && !faults.make && !faults.write && !faults.chmodTemp
        && (faults.replace == Replaced ||
            (faults.replace == Busy && !faults.openTarget && !faults.fill && !faults.chmodTarget && !faults.unlink))
      ensures ok ==> files == old(files)[path := Doc(content)]
      ensures files == FilesAfter(faults, old(files), path, content, temp)
    {
      if faults.make {
        return false;
      }
      files := files[temp := Garbage];
      if faults.write {
        Unlink(temp, faults.cleanUp);
        assert files == FilesAfter(faults, old(files), path, content, temp);
        return false;
      }
      files := files[temp := Doc(content)];
      if !faults.chmodTemp && faults.replace.Replaced? {
        files := files[path := Doc(content)] - {temp};
        assert files == old(files)[path := Doc(content)];
        return true;
      }
      ok := false;
      if !faults.chmodTemp && faults.replace.Busy? {
        ok := WriteInPlace(path, content, faults);
      }
      if ok && !faults.unlink {
        Unlink(temp, false);
      } else {
        ok := false;
        Unlink(temp, faults.cleanUp);
      }
      assert files == FilesAfter(faults, old(files), path, content, temp);
    }

    /** The fallback: opening the target truncates it before anything is written. */
    method WriteInPlace(path: string, content: Payload, faults: Faults) returns (ok: bool)
      modifies this
      ensures ok == (!faults.openTarget && !faults.fill && !faults.chmodTarget)
      ensures files == if faults.openTarget then old(files)
                       else old(files)[path := if faults.fill then Garbage else Doc(content)]
    {
      if faults.openTarget {
        return false;
      }
      files := files[path := Garbage];
      if faults.fill {
        return false;
      }
      files := files[path := Doc(content)];
      ok := !faults.chmodTarget;
    }
  }

  /** The circumstances of one update: the state mount refuses, a directory or the lock
      cannot be had, the read under the lock raises, and the write. */
  datatype Env = Env(blocked: bool, unlocked: bool, readRaises: bool, temp: string, faults: Faults)

  /** The update gets as far as its write. */
  predicate Starts(env: Env) {
    !env.blocked && !env.unlocked
  }

  predicate Succeeds(env: Env) {
    Starts(env) && WriteReturns(env.faults)
  }

  /** `Blocked` is the missing or read-only state mount; `Raised` anything else. */
  datatype Outcome = Updated(payload: Payload) | Blocked | Raised

  class StateStore {
    const fs: FileSystem
    const path: string

    constructor (fs: FileSystem, path: string)
      ensures this.fs == fs && this.path == path
    {
      this.fs := fs;
      this.path := path;
    }

    /** `read_desired`, whose own read may raise. */
    function ReadDesired(raises: bool): Payload
      reads fs
    {
      Read(fs.Get(path), raises)
    }

    /** The document is the edit of what the read under the lock gave, which is nothing
        when that read raised; what is left behind after every failure. */
    method UpdateDesired(m: Mutator, env: Env) returns (r: Outcome)
      requires env.temp != path && env.temp !in fs.files
      modifies fs
      ensures r.Blocked? <==> env.blocked
      ensures r.Updated? <==> Succeeds(env)
      ensures r.Updated? ==> r.payload == ReadDesired(false) == Apply(m, old(ReadDesired(env.readRaises)))
      ensures fs.files == if !Starts(env) then old(fs.files)
        else FilesAfter(env.faults, old(fs.files), path, Apply(m, old(ReadDesired(env.readRaises))), env.temp)
      ensures fs.files - {path, env.temp} == old(fs.files) - {path, env.temp}
    {
      if env.blocked {
        return Blocked;
      }
      if env.unlocked {
        return Raised;
      }
      var current := ReadDesired(env.readRaises);
      var updated;
      match m {
        case SetGroups(groups, revision) => updated := MutateGroups(current, groups, revision);
        case SetCoreUrl(url, revision) => updated := MutateCoreUrl(current, url, revision);
      }
      var ok := fs.AtomicWrite(path, updated, env.temp, env.faults);
      r := if ok then Updated(updated) else Raised;
    }
  }

  // ----- One write is one path of the protocol -------------------------------

  /** The protocol steps of an uninterrupted write under `f`. */
  function WriteSteps(w: nat, f: Faults): seq<Step> {
    if f.make || f.write then [Raise(w)]
    else if f.chmodTemp || f.replace.Refused? then [WriteTemp(w)] + [Raise(w)]
    else if f.replace.Replaced? then [WriteTemp(w)] + [Replace(w)]
    else [WriteTemp(w)] + FallbackSteps(w, f)
  }

  function FallbackSteps(w: nat, f: Faults): seq<Step> {
    if f.openTarget then [Raise(w)]
    else if f.fill then [Truncate(w)] + [Raise(w)]
    else [Truncate(w)] + ([Fill(w)] + [if f.chmodTarget || f.unlink then Raise(w) else Finish(w)])
  }

  ghost predicate Runs(s: State, steps: seq<Step>, t: State)
    decreases |steps|
  {
    if steps == [] then s == t
    else Enabled(s, steps[0]) && Runs(Do(s, steps[0]), steps[1..], t)
  }

  lemma RunsOne(s: State, step: Step, t: State)
    requires Enabled(s, step) && t == Do(s, step)
    ensures Runs(s, [step], t)
  {
    assert [step][1..] == [];
  }

  lemma RunsMore(s: State, step: Step, rest: seq<Step>, t: State)
    requires Enabled(s, step) && Runs(Do(s, step), rest, t)
    ensures Runs(s, [step] + rest, t)
  {
    assert ([step] + rest)[1..] == rest;
  }

  /** `t` is `s` after the write: the target as `file`, the writer about to return. */
  ghost predicate Leaves(s: State, w: nat, m: Mutator, file: File, ok: bool, t: State) {
    && t.file == file
    && t.writers == s.writers[w := Returning(m, ok)]
    && t.lock == s.lock && t.acked == s.acked
  }

  lemma FallbackRefinesProtocol(s: State, w: nat, m: Mutator, blind: bool, updated: Payload, f: Faults)
    returns (t: State)
    requires w in s.writers && s.writers[w] == TempReady(m, blind, updated)
    requires FellBack(f)
    ensures Runs(s, FallbackSteps(w, f), t)
    ensures Leaves(s, w, m, TargetAfter(f, s.file, updated), WriteReturns(f), t)
  {
    if f.openTarget {
      t := Do(s, Raise(w));
      RunsOne(s, Raise(w), t);
    } else {
      var s1 := Do(s, Truncate(w));
      if f.fill {
        t := Do(s1, Raise(w));
        RunsOne(s1, Raise(w), t);
        RunsMore(s, Truncate(w), [Raise(w)], t);
      } else {
        var last := if f.chmodTarget || f.unlink then Raise(w) else Finish(w);
        var s2 := Do(s1, Fill(w));
        t := Do(s2, last);
        RunsOne(s2, last, t);
        RunsMore(s1, Fill(w), [last], t);
        RunsMore(s, Truncate(w), [Fill(w)] + [last], t);
      }
    }
  }

  /** Whatever the faults, the write is a path of the protocol that ends with the
      file `AtomicWrite` leaves, the answer it reports, and nobody else touched. */
  lemma WriteRefinesProtocol(s: State, w: nat, m: Mutator, blind: bool, updated: Payload, f: Faults)
    returns (t: State)
    requires w in s.writers && s.writers[w] == Staged(m, blind, updated)
    ensures Runs(s, WriteSteps(w, f), t)
    ensures Leaves(s, w, m, TargetAfter(f, s.file, updated), WriteReturns(f), t)
  {
    if f.make || f.write {
      t := Do(s, Raise(w));
      RunsOne(s, Raise(w), t);
    } else {
      var s1 := Do(s, WriteTemp(w));
      if FellBack(f) {
        t := FallbackRefinesProtocol(s1, w, m, blind, updated, f);
        RunsMore(s, WriteTemp(w), FallbackSteps(w, f), t);
      } else {
        var step := if f.chmodTemp || f.replace.Refused? then Raise(w) else Replace(w);
        t := Do(s1, step);
        RunsOne(s1, step, t);
        RunsMore(s, WriteTemp(w), [step], t);
      }
    }
  }
}
