/**
 Publication of release evidence on a disk where any operation may fail and the process may
 stop at any moment: files are staged under temporary names and renamed into place, the index
 last. The disk keeps every state it has been in, so that a claim about all of them is a claim
 about every moment at which the process could stop.
 */
module EvidenceStore {
  import opened OptionWrapper

  type Byte = b: int | 0 <= b < 0x100
  type Bytes = seq<Byte>

  datatype Sidecar = Checksum | Compatibility | Sbom | Licenses | Index

  /** The files in play. Their names differ in their suffixes. */
  datatype Path = Artifact | Side(kind: Sidecar) | Temp(kind: Sidecar, id: nat)

  type Files = map<Path, Bytes>

  /** What befalls an operation: it may fail, a write after some of the bytes. */
  datatype Fault = Fault(fails: bool, cut: nat)

  datatype Io = Done | Missing | Failed

  /** All but the temporary files. */
  function Settled(s: Files): (r: Files) { map p | p in s && !p.Temp? :: s[p] }

  function Temps(s: Files): (r: Files) { map p | p in s && p.Temp? :: s[p] }

  class Disk {
    var files: Files
    ghost var history: seq<Files>
    var clock: nat
    var nextId: nat
    const faults: nat -> Fault

    constructor (files: Files, faults: nat -> Fault)
      ensures Valid() && this.files == files && history == [files]
    {
      this.files, history, clock, nextId, this.faults := files, [files], 0, 1, faults;
    }

    ghost predicate Valid()
      reads this
    {
      history != [] && history[|history| - 1] == files
    }

    method Next() returns (f: Fault)
      modifies this`clock
    {
      f := faults(clock);
      clock := clock + 1;
    }

    method Remove(p: Path) returns (r: Io)
      requires Valid()
      modifies this
      ensures Valid() && nextId == old(nextId)
      ensures r == Done ==> p in old(files) && files == old(files) - {p} && history == old(history) + [files]
      ensures r != Done ==> files == old(files) && history == old(history)
      ensures r == Missing ==> p !in files
    {
      var f := Next();
      if f.fails { return Failed; }
      if p !in files { return Missing; }
      files := files - {p};
      history := history + [files];
      r := Done;
    }

    method Read(p: Path) returns (r: Io, bytes: Bytes)
      modifies this`clock
      ensures r == Done ==> p in files && bytes == files[p]
    {
      var f := Next();
      if f.fails || p !in files { return Failed, []; }
      r, bytes := Done, files[p];
    }

    /** Creates only what is not there. */
    method CreateNew(p: Path) returns (r: Io)
      requires Valid()
      modifies this
      ensures Valid() && nextId == old(nextId)
      ensures r == Done ==> p !in old(files) && files == old(files)[p := []] && history == old(history) + [files]
      ensures r != Done ==> files == old(files) && history == old(history)
      ensures r == Missing ==> p in files
    {
      var f := Next();
      if f.fails { return Failed; }
      if p in files { return Missing; }
      files := files[p := []];
      history := history + [files];
      r := Done;
    }

    /** `write_all` and `sync_all`: some of the bytes are there before all of them are. */
    method WriteAll(p: Path, bytes: Bytes) returns (ok: bool)
      requires Valid() && p in files && p.Temp?
      modifies this
      ensures Valid() && nextId == old(nextId) && old(history) <= history
      ensures p in files && files - {p} == old(files) - {p}
      ensures ok ==> files[p] == bytes
      ensures forall i :: |old(history)| <= i < |history| ==> Settled(history[i]) == Settled(old(files))
    {
      var before := files;
      var f := Next();
      var cut := if f.cut < |bytes| then f.cut else |bytes|;
      files := files[p := bytes[..cut]];
      history := history + [files];
      assert Settled(files) == Settled(before);
      if f.fails { return false; }
      files := files[p := bytes];
      history := history + [files];
      assert Settled(files) == Settled(before);
      f := Next();
      ok := !f.fails;
    }

    /** Atomic: the destination is replaced, or nothing happens. */
    method Rename(from: Path, to: Path) returns (ok: bool)
      requires Valid() && from != to
      modifies this
      ensures Valid() && nextId == old(nextId)
      ensures ok ==> from in old(files) && files == (old(files) - {from})[to := old(files)[from]]
                     && history == old(history) + [files]
      ensures !ok ==> files == old(files) && history == old(history)
    {
      var f := Next();
      if f.fails || from !in files { return false; }
      files := (files - {from})[to := files[from]];
      history := history + [files];
      ok := true;
    }
  }

  // ---------------------------------------------------------------- staged files

  /** A file written under a temporary name, waiting to be renamed. */
  datatype StagedFile = StagedFile(temporary: Path, destination: Sidecar)

  predicate IsStaged(st: StagedFile, destination: Sidecar) { st.destination == destination && st.temporary.Temp? }

  /** Nothing but temporary files changed, at any moment. */
  ghost predicate Quiet(before: Files, history: seq<Files>, from: nat)
  {
    forall i :: from <= i < |history| ==> Settled(history[i]) == Settled(before)
  }

  /** `Drop`: the temporary file is removed, if that works. */
  method DropStaged(disk: Disk, st: StagedFile)
    requires disk.Valid() && st.temporary.Temp?
    modifies disk
    ensures disk.Valid() && old(disk.history) <= disk.history
    ensures Quiet(old(disk.files), disk.history, |old(disk.history)|) && Settled(disk.files) == Settled(old(disk.files))
    ensures Temps(disk.files) - {st.temporary} == Temps(old(disk.files)) - {st.temporary}
  {
    var r := disk.Remove(st.temporary);
    assert Settled(disk.files) == Settled(old(disk.files));
  }

  const ATTEMPTS := 16

  lemma SettledTemp(files: Files, t: Path, bytes: Bytes)
    requires t.Temp?
    ensures Settled(files[t := bytes]) == Settled(files) && Temps(files[t := bytes]) == Temps(files)[t := bytes]
  {
  }

  lemma SameButTemp(a: Files, b: Files, t: Path)
    requires t.Temp? && t !in a && t in b && b - {t} == a
    ensures Settled(a) == Settled(b) && Temps(b) == Temps(a)[t := b[t]]
  {
    assert b == a[t := b[t]];
    SettledTemp(a, t, b[t]);
  }

  /** `StagedFile::new`: a name not yet taken, or after sixteen that are, an error. */
  method Stage(disk: Disk, destination: Sidecar, contents: Bytes) returns (r: Option<StagedFile>)
    requires disk.Valid()
    modifies disk
    ensures disk.Valid() && old(disk.history) <= disk.history
    ensures Quiet(old(disk.files), disk.history, |old(disk.history)|) && Settled(disk.files) == Settled(old(disk.files))
    ensures r.Some? ==> IsStaged(r.value, destination) && r.value.temporary !in Temps(old(disk.files))
    ensures r.Some? ==> Temps(disk.files) == Temps(old(disk.files))[r.value.temporary := contents]
  {
    for n := 0 to ATTEMPTS
      invariant disk.Valid() && disk.files == old(disk.files) && disk.history == old(disk.history)
    {
      var temporary := Temp(destination, disk.nextId);
      disk.nextId := disk.nextId + 1;
      var created := disk.CreateNew(temporary);
      if created == Missing { continue; }
      if created == Failed { return None; }
      label Created:
      SettledTemp(old(disk.files), temporary, []);
      assert disk.history == old(disk.history) + [disk.files];
      var st := StagedFile(temporary, destination);
      var ok := disk.WriteAll(temporary, contents);
      assert Quiet(old(disk.files), disk.history, |old(disk.history)|);
      SameButTemp(old(disk.files), disk.files, temporary);
      if !ok {
        ghost var written := disk.history;
        DropStaged(disk, st);
        return None;
      }
      return Some(st);
    }
    r := None;
  }

  /** The moments of a commit: as before, without the old file, with the new one. */
  ghost predicate Moment(s: Files, before: Files, destination: Sidecar, contents: Bytes)
  {
    || Settled(s) == Settled(before)
    || Settled(s) == Settled(before) - {Side(destination)}
    || Settled(s) == Settled(before)[Side(destination) := contents]
  }

  ghost predicate Moments(history: seq<Files>, from: nat, before: Files, destination: Sidecar, contents: Bytes)
  {
    forall i :: from <= i < |history| ==> Moment(history[i], before, destination, contents)
  }

  lemma RemovedSide(files: Files, k: Sidecar)
    ensures Settled(files - {Side(k)}) == Settled(files) - {Side(k)} && Temps(files - {Side(k)}) == Temps(files)
  {
  }

  lemma Renamed(files: Files, t: Path, k: Sidecar)
    requires t.Temp? && t in files
    ensures var after := (files - {t})[Side(k) := files[t]];
            Settled(after) == Settled(files)[Side(k) := files[t]] && Temps(after) == Temps(files) - {t}
  {
  }

  /** `commit`: renamed into place, or the temporary file dropped. */
  method Commit(disk: Disk, windows: bool, st: StagedFile, ghost contents: Bytes) returns (ok: bool)
    requires disk.Valid() && st.temporary.Temp? && st.temporary in disk.files && disk.files[st.temporary] == contents
    modifies disk
    ensures disk.Valid() && old(disk.history) <= disk.history
    ensures Moments(disk.history, |old(disk.history)|, old(disk.files), st.destination, contents)
    ensures Moment(disk.files, old(disk.files), st.destination, contents)
    ensures Temps(disk.files) - {st.temporary} == Temps(old(disk.files)) - {st.temporary}
    ensures ok ==> Settled(disk.files) == Settled(old(disk.files))[Side(st.destination) := contents]
    ensures ok ==> Temps(disk.files) == Temps(old(disk.files)) - {st.temporary}
    ensures !ok ==> Settled(disk.files) == Settled(old(disk.files))
                    || Settled(disk.files) == Settled(old(disk.files)) - {Side(st.destination)}
  {
    var to := Side(st.destination);
    if windows {
      var removed := disk.Remove(to);
      if removed == Done { RemovedSide(old(disk.files), st.destination); }
      if removed == Failed {
        DropStaged(disk, st);
        return false;
      }
    }
    ghost var mid := disk.files;
    ok := disk.Rename(st.temporary, to);
    if ok {
      Renamed(mid, st.temporary, st.destination);
    } else {
      DropStaged(disk, st);
    }
  }

  // ---------------------------------------------------------------- publication

  /** The bytes of the five sidecars of one build. */
  datatype Plan = Plan(checksum: Bytes, compatibility: Bytes, sbom: Bytes, licenses: Bytes, index: Bytes)

  function Content(plan: Plan, k: Sidecar): (b: Bytes)
  {
    match k
    case Checksum => plan.checksum
    case Compatibility => plan.compatibility
    case Sbom => plan.sbom
    case Licenses => plan.licenses
    case Index => plan.index
  }

  /** Where there is an index, it is this build's, and so are the four files beside it. */
  ghost predicate Consistent(s: Files, plan: Plan)
  {
    Side(Index) in s ==> forall k :: Side(k) in s && s[Side(k)] == Content(plan, k)
  }

  ghost predicate AllConsistent(history: seq<Files>, from: nat, plan: Plan)
  {
    forall i :: from <= i < |history| ==> Consistent(history[i], plan)
  }

  ghost predicate NoIndex(history: seq<Files>, from: nat)
  {
    forall i :: from <= i < |history| ==> Side(Index) !in history[i]
  }

  function Put(s: Files, plan: Plan, k: Sidecar): (r: Files) { s[Side(k) := Content(plan, k)] }

  /** All five in place. */
  function Published(s: Files, plan: Plan): (r: Files)
  {
    Put(Put(Put(Put(Put(s, plan, Compatibility), plan, Sbom), plan, Licenses), plan, Checksum), plan, Index)
  }

  lemma QuietHasNoIndex(before: seq<Files>, files: Files, history: seq<Files>, from: nat)
    requires before <= history && from <= |before| && NoIndex(before, from)
    requires Side(Index) !in files && Quiet(files, history, |before|)
    ensures NoIndex(history, from)
  {
    forall i | from <= i < |history| ensures Side(Index) !in history[i] {
      if i < |before| {
        assert history[i] == before[i];
      } else {
        assert Side(Index) !in Settled(history[i]);
      }
    }
  }

  lemma CommitHasNoIndex(before: seq<Files>, files: Files, history: seq<Files>, from: nat, k: Sidecar, contents: Bytes)
    requires before <= history && from <= |before| && NoIndex(before, from) && k != Index
    requires Side(Index) !in files && Moments(history, |before|, files, k, contents)
    ensures NoIndex(history, from)
  {
    forall i | from <= i < |history| ensures Side(Index) !in history[i] {
      if i < |before| {
        assert history[i] == before[i];
      } else {
        assert Moment(history[i], files, k, contents);
        assert Side(Index) !in Settled(history[i]);
      }
    }
  }

  /** What is still staged when a step fails is dropped. */
  method Abandon(disk: Disk, staged: seq<StagedFile>, ghost from: nat)
    requires disk.Valid() && forall i :: 0 <= i < |staged| ==> staged[i].temporary.Temp?
    requires from < |disk.history| && NoIndex(disk.history, from)
    modifies disk
    ensures disk.Valid() && old(disk.history) <= disk.history && NoIndex(disk.history, from)
  {
    for n := 0 to |staged|
      invariant disk.Valid() && old(disk.history) <= disk.history && NoIndex(disk.history, from)
    {
      ghost var before, files := disk.history, disk.files;
      DropStaged(disk, staged[n]);
      QuietHasNoIndex(before, files, disk.history, from);
    }
  }

  /** One staging step of a publication. */
  method StageNext(disk: Disk, k: Sidecar, contents: Bytes, staged: seq<StagedFile>, ghost from: nat)
    returns (r: Option<StagedFile>)
    requires disk.Valid() && from < |disk.history| && NoIndex(disk.history, from)
    requires forall i :: 0 <= i < |staged| ==> staged[i].temporary.Temp?
    modifies disk
    ensures disk.Valid() && old(disk.history) <= disk.history && NoIndex(disk.history, from)
    ensures r.Some? ==> Settled(disk.files) == Settled(old(disk.files)) && IsStaged(r.value, k)
    ensures r.Some? ==> r.value.temporary !in Temps(old(disk.files))
    ensures r.Some? ==> Temps(disk.files) == Temps(old(disk.files))[r.value.temporary := contents]
  {
    ghost var before, files := disk.history, disk.files;
    r := Stage(disk, k, contents);
    QuietHasNoIndex(before, files, disk.history, from);
    if r.None? { Abandon(disk, staged, from); }
  }

  /** One commit of a publication, not the index's. */
  method CommitNext(disk: Disk, windows: bool, st: StagedFile, ghost contents: Bytes, rest: seq<StagedFile>,
                    ghost from: nat)
    returns (ok: bool)
    requires disk.Valid() && from < |disk.history| && NoIndex(disk.history, from)
    requires forall i :: 0 <= i < |rest| ==> rest[i].temporary.Temp?
    requires st.temporary.Temp? && st.temporary in Temps(disk.files) && Temps(disk.files)[st.temporary] == contents
    requires st.destination != Index
    modifies disk
    ensures disk.Valid() && old(disk.history) <= disk.history && NoIndex(disk.history, from)
    ensures ok ==> Settled(disk.files) == Settled(old(disk.files))[Side(st.destination) := contents]
    ensures ok ==> Temps(disk.files) == Temps(old(disk.files)) - {st.temporary}
  {
    ghost var before, files := disk.history, disk.files;
    ok := Commit(disk, windows, st, contents);
    CommitHasNoIndex(before, files, disk.history, from, st.destination, contents);
    if !ok { Abandon(disk, rest, from); }
  }

  lemma MomentIsConsistent(s: Files, before: Files, plan: Plan)
    requires Side(Index) !in before && Moment(s, before, Index, plan.index)
    requires forall k :: k != Index ==> Side(k) in before && before[Side(k)] == Content(plan, k)
    ensures Consistent(s, plan)
  {
    if Side(Index) in s {
      assert Side(Index) in Settled(s);
      forall k ensures Side(k) in s && s[Side(k)] == Content(plan, k) {
        assert Side(k) in Settled(s) && Settled(s)[Side(k)] == Content(plan, k);
      }
    }
  }

  /** The last commit: before it there is no index, after it everything is in place. */
  method CommitIndex(disk: Disk, windows: bool, st: StagedFile, plan: Plan, ghost from: nat) returns (ok: bool)
    requires disk.Valid() && from < |disk.history| && NoIndex(disk.history, from)
    requires IsStaged(st, Index) && st.temporary in Temps(disk.files) && Temps(disk.files)[st.temporary] == plan.index
    requires forall k :: k != Index ==> Side(k) in disk.files && disk.files[Side(k)] == Content(plan, k)
    modifies disk
    ensures disk.Valid() && old(disk.history) <= disk.history && AllConsistent(disk.history, from, plan)
    ensures ok ==> Settled(disk.files) == Put(Settled(old(disk.files)), plan, Index)
    ensures ok ==> Temps(disk.files) == Temps(old(disk.files)) - {st.temporary}
    ensures !ok ==> Side(Index) !in disk.files
  {
    ghost var before, files := disk.history, disk.files;
    assert Side(Index) !in files;
    ok := Commit(disk, windows, st, plan.index);
    forall i | from <= i < |disk.history| ensures Consistent(disk.history[i], plan) {
      if i < |before| {
        assert disk.history[i] == before[i];
      } else {
        MomentIsConsistent(disk.history[i], files, plan);
      }
    }
    if !ok { assert Side(Index) !in Settled(disk.files); }
  }

  datatype Batch = Batch(compatibility: StagedFile, sbom: StagedFile, licenses: StagedFile,
                         index: StagedFile, checksum: StagedFile)

  /** The temporary files: those there before, and the five of this build under new names. */
  ghost predicate Ready(b: Batch, plan: Plan, base: Files, temps: Files)
  {
    var one := base[b.compatibility.temporary := plan.compatibility];
    var two := one[b.sbom.temporary := plan.sbom];
    var three := two[b.licenses.temporary := plan.licenses];
    var four := three[b.index.temporary := plan.index];
    && IsStaged(b.compatibility, Compatibility) && IsStaged(b.sbom, Sbom) && IsStaged(b.licenses, Licenses)
    && IsStaged(b.index, Index) && IsStaged(b.checksum, Checksum)
    && b.compatibility.temporary !in base && b.sbom.temporary !in one && b.licenses.temporary !in two
    && b.index.temporary !in three && b.checksum.temporary !in four
    && temps == four[b.checksum.temporary := plan.checksum]
  }

  method StageAll(disk: Disk, plan: Plan, ghost from: nat) returns (r: Option<Batch>)
    requires disk.Valid() && from < |disk.history| && NoIndex(disk.history, from)
    modifies disk
    ensures disk.Valid() && old(disk.history) <= disk.history && NoIndex(disk.history, from)
    ensures r.Some? ==> Settled(disk.files) == Settled(old(disk.files))
    ensures r.Some? ==> Ready(r.value, plan, Temps(old(disk.files)), Temps(disk.files))
  {
    hide Settled, Temps, NoIndex;
    r := None;
    var compatibility := StageNext(disk, Compatibility, plan.compatibility, [], from);
    if compatibility.None? { return; }
    var c := compatibility.value;
    var sbom := StageNext(disk, Sbom, plan.sbom, [c], from);
    if sbom.None? { return; }
    var s := sbom.value;
    var licenses := StageNext(disk, Licenses, plan.licenses, [c, s], from);
    if licenses.None? { return; }
    var l := licenses.value;
    var index := StageNext(disk, Index, plan.index, [c, s, l], from);
    if index.None? { return; }
    var x := index.value;
    var checksum := StageNext(disk, Checksum, plan.checksum, [c, s, l, x], from);
    if checksum.None? { return; }
    r := Some(Batch(c, s, l, x, checksum.value));
  }

  /** Removing the five again leaves the temporary files as they were. */
  lemma ReadyUndone(b: Batch, plan: Plan, base: Files, temps: Files)
    requires Ready(b, plan, base, temps)
    ensures var c, s, l, x, k := b.compatibility.temporary, b.sbom.temporary,
              b.licenses.temporary, b.index.temporary, b.checksum.temporary;
            && c in temps && temps[c] == plan.compatibility
            && s in temps - {c} && temps[s] == plan.sbom
            && l in temps - {c} - {s} && temps[l] == plan.licenses
            && k in temps - {c} - {s} - {l} && temps[k] == plan.checksum
            && x in temps - {c} - {s} - {l} - {k} && temps[x] == plan.index
            && temps - {c} - {s} - {l} - {k} - {x} == base
  {
  }

  lemma StillNoIndex(disk: Disk, from: nat, plan: Plan)
    requires disk.Valid() && from < |disk.history| && NoIndex(disk.history, from)
    ensures AllConsistent(disk.history, from, plan) && Side(Index) !in disk.files
  {
  }

  lemma FourInPlace(before: Files, files: Files, plan: Plan)
    requires Settled(files) ==
               Put(Put(Put(Put(Settled(before), plan, Compatibility), plan, Sbom), plan, Licenses), plan, Checksum)
    ensures forall k :: k != Index ==> Side(k) in files && files[Side(k)] == Content(plan, k)
  {
    forall k | k != Index ensures Side(k) in files && files[Side(k)] == Content(plan, k) {
      assert Side(k) in Settled(files) && Settled(files)[Side(k)] == Content(plan, k);
    }
  }

  method CommitAll(disk: Disk, windows: bool, b: Batch, plan: Plan, ghost base: Files, ghost from: nat)
    returns (ok: bool)
    requires disk.Valid() && from < |disk.history| && NoIndex(disk.history, from)
    requires Ready(b, plan, base, Temps(disk.files))
    modifies disk
    ensures disk.Valid() && old(disk.history) <= disk.history && AllConsistent(disk.history, from, plan)
    ensures ok ==> Settled(disk.files) == Published(Settled(old(disk.files)), plan) && Temps(disk.files) == base
    ensures !ok ==> Side(Index) !in disk.files
  {
    ReadyUndone(b, plan, base, Temps(disk.files));
    hide Ready, Temps, Settled, NoIndex, AllConsistent;
    ok := CommitNext(disk, windows, b.compatibility, plan.compatibility,
                     [b.sbom, b.licenses, b.index, b.checksum], from);
    if ok { ok := CommitNext(disk, windows, b.sbom, plan.sbom, [b.licenses, b.index, b.checksum], from); }
    if ok { ok := CommitNext(disk, windows, b.licenses, plan.licenses, [b.index, b.checksum], from); }
    if ok { ok := CommitNext(disk, windows, b.checksum, plan.checksum, [b.index], from); }
    if !ok {
      StillNoIndex(disk, from, plan);
      return;
    }
    FourInPlace(old(disk.files), disk.files, plan);
    ok := CommitIndex(disk, windows, b.index, plan, from);
  }

  /** Five files staged, then five renamed, the index last. At every moment, whatever fails
      and wherever the process stops, an index on the disk is this build's and has this
      build's files beside it. */
  method Publish(disk: Disk, windows: bool, plan: Plan) returns (ok: bool)
    requires disk.Valid() && Side(Index) !in disk.files
    modifies disk
    ensures disk.Valid() && old(disk.history) <= disk.history
    ensures AllConsistent(disk.history, |old(disk.history)| - 1, plan)
    ensures ok ==> Settled(disk.files) == Published(Settled(old(disk.files)), plan)
                   && Temps(disk.files) == Temps(old(disk.files))
    ensures !ok ==> Side(Index) !in disk.files
  {
    ghost var from := |disk.history| - 1;
    ghost var base := Temps(disk.files);
    assert NoIndex(disk.history, from);
    var batch := StageAll(disk, plan, from);
    if batch.None? {
      StillNoIndex(disk, from, plan);
      return false;
    }
    ok := CommitAll(disk, windows, batch.value, plan, base, from);
  }
}
