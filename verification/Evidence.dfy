/**
 Release evidence: what is written beside a release artifact, how it is checked, and that the
 one agrees with the other. Digests, JSON, the package format and the JSON reader that looks
 for an inventory are parameters.
 */
module ReleaseEvidence {
  import opened OptionWrapper
  import opened EvidenceStore

  const EVIDENCE_VERSION: nat := 2
  const MAX_SIDECAR_BYTES: nat := 32 * 1024 * 1024

  // ---------------------------------------------------------------- documents

  datatype Tap = Tap(applicationId: string, executionProfile: string, payload: Bytes)
  datatype Report = Report(compatible: bool, details: string)
  datatype Component = Component(name: string, version: string, license: string, purl: string, checksum: Option<string>)
  datatype Inventory = Inventory(lockSha256: string, components: seq<Component>, details: string)

  datatype BomHash = BomHash(alg: string, content: string)
  datatype BomComponent = BomComponent(kind: string, bomRef: string, name: string, version: Option<string>,
                                       hashes: seq<BomHash>, licenses: seq<string>, purl: Option<string>)
  datatype Bom = Bom(application: BomComponent, components: seq<BomComponent>)
  datatype Licensed = Licensed(name: string, version: string, license: string, purl: string)
  datatype LicenseInventory = LicenseInventory(lockSha256: string, components: seq<Licensed>)

  datatype DocumentEvidence = DocumentEvidence(kind: string, size: nat, sha256: string)
  datatype EvidenceIndex = EvidenceIndex(version: nat, kind: string, target: string, size: nat, sha256: string,
                                         applicationId: string, executionProfile: string, compatibility: Report,
                                         inventorySha256: string, sbom: DocumentEvidence, licenses: DocumentEvidence)

  datatype Doc = IndexDoc(index: EvidenceIndex) | ReportDoc(report: Report) | BomDoc(bom: Bom)
    | LicensesDoc(licenses: LicenseInventory)
  datatype DocKind = IndexKind | ReportKind | BomKind | LicensesKind

  function KindOf(d: Doc): (k: DocKind)
  {
    match d
    case IndexDoc(_) => IndexKind
    case ReportDoc(_) => ReportKind
    case BomDoc(_) => BomKind
    case LicensesDoc(_) => LicensesKind
  }

  /** What is taken from outside. `inventoryAt` reads a JSON value off the front of its input and
      says how many bytes it took. */
  datatype Env = Env(
    hash: Bytes -> string,
    text: string -> Bytes,
    tap: Bytes -> Option<Tap>,
    report: Bytes -> Report,
    inventoryAt: Bytes -> Option<(Inventory, nat)>,
    valid: Inventory -> bool,
    lockedInventory: Bytes,
    json: Doc -> Bytes,
    parse: (DocKind, Bytes) -> Option<Doc>)

  /** Reading what was written gives it back. */
  ghost predicate RoundTrips(env: Env) { forall d :: env.parse(KindOf(d), env.json(d)) == Some(d) }

  // ---------------------------------------------------------------- the runtime inventory

  /** The text every inventory begins with. */
  function Prefix(): (b: Bytes)
  {
    [123, 10, 32, 32, 34, 105, 110, 118, 101, 110, 116, 111, 114, 121, 95, 118, 101, 114, 115, 105, 111, 110, 34, 58]
  }

  function EndMark(): (b: Bytes)
    ensures |b| == 8
  {
    [84, 89, 83, 69, 76, 69, 78, 68]
  }

  function LittleEndian(b: Bytes): (n: nat) { if b == [] then 0 else b[0] + 256 * LittleEndian(b[1..]) }

  /** What the artifact was before the package was appended to it. */
  function Stub(artifact: Bytes): (r: Option<Bytes>)
  {
    if |artifact| < 16 then None
    else
      var footer := |artifact| - 16;
      if artifact[footer + 8..] != EndMark() then None
      else
        var length := LittleEndian(artifact[footer..footer + 8]);
        if length > footer then None else Some(artifact[..footer - length])
  }

  /** The inventory at an offset of the stub, with its bytes and the newline after it. */
  function Candidate(env: Env, stub: Bytes, offset: nat): (r: Option<(Inventory, Bytes)>)
  {
    if offset + |Prefix()| > |stub| || stub[offset..offset + |Prefix()|] != Prefix() then None
    else
      var rest := stub[offset..];
      match env.inventoryAt(rest)
      case None => None
      case Some(found) =>
        var consumed := if found.1 < |rest| && rest[found.1] == 10 then found.1 + 1 else found.1;
        if !env.valid(found.0) || consumed > |rest| then None else Some((found.0, rest[..consumed]))
  }

  ghost predicate OnlyAt(env: Env, stub: Bytes, offset: nat)
  {
    Candidate(env, stub, offset).Some? && forall o :: Candidate(env, stub, o).Some? ==> o == offset
  }

  /** The scan finds an inventory just when the stub has exactly one. */
  method FindInventory(env: Env, stub: Bytes) returns (r: Option<(Inventory, Bytes)>, ghost at: nat)
    ensures r.Some? ==> OnlyAt(env, stub, at) && r == Candidate(env, stub, at)
    ensures r.None? ==> forall o :: !OnlyAt(env, stub, o)
  {
    hide Prefix;
    r, at := None, 0;
    if |stub| < |Prefix()| { return; }
    for offset := 0 to |stub| - |Prefix()| + 1
      invariant r.Some? ==> at < offset && r == Candidate(env, stub, at)
      invariant forall o :: 0 <= o < offset && Candidate(env, stub, o).Some? ==> r.Some? && o == at
    {
      var found := Candidate(env, stub, offset);
      if found.None? { continue; }
      if r.Some? {
        r := None;
        return;
      }
      r, at := found, offset;
    }
  }

  /** The one inventory of the stub, if there is exactly one. */
  ghost function InventoryOf(env: Env, artifact: Bytes): (r: Option<(Inventory, Bytes)>)
  {
    var stub := Stub(artifact);
    if stub.None? || !exists o :: OnlyAt(env, stub.value, o) then None
    else var o :| OnlyAt(env, stub.value, o); Candidate(env, stub.value, o)
  }

  method RuntimeInventory(env: Env, artifact: Bytes) returns (r: Option<(Inventory, Bytes)>)
    ensures r == InventoryOf(env, artifact)
  {
    var stub := Stub(artifact);
    if stub.None? { return None; }
    ghost var at;
    r, at := FindInventory(env, stub.value);
  }

  // ---------------------------------------------------------------- supply chain

  function HashesOf(checksum: Option<string>): (r: seq<BomHash>)
  {
    if checksum.None? then [] else [BomHash("SHA-256", checksum.value)]
  }

  function LibraryOf(c: Component): (r: BomComponent)
  {
    BomComponent("library", c.purl, c.name, Some(c.version), HashesOf(c.checksum), [c.license], Some(c.purl))
  }

  function BomOf(tap: Tap, digest: string, inventory: Inventory): (r: Bom)
    ensures |r.components| == |inventory.components|
    ensures forall i :: 0 <= i < |r.components| ==> r.components[i] == LibraryOf(inventory.components[i])
  {
    var n := |inventory.components|;
    Bom(BomComponent("application", "tysel-application:" + digest, tap.applicationId, None,
                     [BomHash("SHA-256", digest)], [], None),
        seq(n, i requires 0 <= i < n => LibraryOf(inventory.components[i])))
  }

  function LicensesOf(inventory: Inventory): (r: LicenseInventory)
    ensures |r.components| == |inventory.components|
    ensures forall i :: 0 <= i < |r.components| ==>
              var c := inventory.components[i]; r.components[i] == Licensed(c.name, c.version, c.license, c.purl)
  {
    var n := |inventory.components|;
    LicenseInventory(inventory.lockSha256,
                     seq(n, i requires 0 <= i < n =>
                       Licensed(inventory.components[i].name, inventory.components[i].version,
                                inventory.components[i].license, inventory.components[i].purl)))
  }

  // ---------------------------------------------------------------- what is written

  datatype Facts = Facts(tap: Tap, inventory: Inventory, inventoryBytes: Bytes)

  ghost function FactsOf(env: Env, artifact: Bytes): (r: Option<Facts>)
  {
    var tap, inventory := env.tap(artifact), InventoryOf(env, artifact);
    if tap.None? || inventory.None? then None else Some(Facts(tap.value, inventory.value.0, inventory.value.1))
  }

  function Document(env: Env, kind: string, bytes: Bytes): (r: DocumentEvidence)
  {
    DocumentEvidence(kind, |bytes|, env.hash(bytes))
  }

  function IndexOf(env: Env, artifact: Bytes, f: Facts, target: string): (r: EvidenceIndex)
  {
    var digest := env.hash(artifact);
    EvidenceIndex(EVIDENCE_VERSION, "tysel-single-executable", target, |artifact|, digest,
                  f.tap.applicationId, f.tap.executionProfile, env.report(f.tap.payload), env.hash(f.inventoryBytes),
                  Document(env, "cyclonedx-1.5", env.json(BomDoc(BomOf(f.tap, digest, f.inventory)))),
                  Document(env, "spdx-license-inventory", env.json(LicensesDoc(LicensesOf(f.inventory)))))
  }

  function PlanOf(env: Env, artifact: Bytes, f: Facts, target: string): (r: Plan)
  {
    var digest := env.hash(artifact);
    Plan(env.text(digest + "\n"), env.json(ReportDoc(env.report(f.tap.payload))),
         env.json(BomDoc(BomOf(f.tap, digest, f.inventory))), env.json(LicensesDoc(LicensesOf(f.inventory))),
         env.json(IndexDoc(IndexOf(env, artifact, f, target))))
  }

  /** The artifact can be released: it holds a compatible package and one inventory, the locked
      one unless the caller vouches for the runtime. */
  ghost predicate Releasable(env: Env, artifact: Bytes, vouched: bool)
  {
    var f := FactsOf(env, artifact);
    f.Some? && (vouched || f.value.inventoryBytes == env.lockedInventory) && env.report(f.value.tap.payload).compatible
  }

  /** A state of the disk tells no lies: an index there is this artifact's and the files beside it
      are those it was built from. */
  ghost predicate Truthful(env: Env, artifact: Bytes, target: string, vouched: bool, s: Files)
  {
    Side(Index) in s ==>
      Releasable(env, artifact, vouched) && Consistent(s, PlanOf(env, artifact, FactsOf(env, artifact).value, target))
  }

  function ArtifactOf(s: Files): (b: Bytes) { if Artifact in s then s[Artifact] else [] }

  ghost function Planned(env: Env, artifact: Bytes, target: string, vouched: bool): (r: Option<Plan>)
  {
    if Releasable(env, artifact, vouched) then Some(PlanOf(env, artifact, FactsOf(env, artifact).value, target))
    else None
  }

  /** The contents of the sidecars, from the artifact's bytes. */
  method MakePlan(env: Env, artifact: Bytes, target: string, vouched: bool) returns (r: Option<Plan>)
    ensures r == Planned(env, artifact, target, vouched)
  {
    hide InventoryOf, PlanOf;
    var tap := env.tap(artifact);
    if tap.None? { return None; }
    var inventory := RuntimeInventory(env, artifact);
    if inventory.None? { return None; }
    if !vouched && inventory.value.1 != env.lockedInventory { return None; }
    if !env.report(tap.value.payload).compatible { return None; }
    r := Some(PlanOf(env, artifact, Facts(tap.value, inventory.value.0, inventory.value.1), target));
  }

  lemma PublishingIsTruthful(env: Env, artifact: Bytes, target: string, vouched: bool, history: seq<Files>, from: nat)
    requires Releasable(env, artifact, vouched)
    requires AllConsistent(history, from, PlanOf(env, artifact, FactsOf(env, artifact).value, target))
    ensures forall i :: from <= i < |history| ==> Truthful(env, artifact, target, vouched, history[i])
  {
    hide Releasable, Consistent, PlanOf, FactsOf;
  }

  lemma WithoutIndex(files: Files)
    ensures Settled(files - {Side(Index)}) == Settled(files) - {Side(Index)}
            && Temps(files - {Side(Index)}) == Temps(files)
    ensures Side(Index) !in files ==> Settled(files) - {Side(Index)} == Settled(files)
  {
  }

  /** `write_release_evidence_inner`. If the old index cannot be removed nothing happens. From then
      on every state is truthful, however the rest goes; and when it succeeds all five files are
      in place and no temporary file is left. */
  method WriteEvidence(disk: Disk, env: Env, windows: bool, target: string, vouched: bool)
    returns (ok: bool, ghost removed: bool)
    requires disk.Valid()
    modifies disk
    ensures disk.Valid() && old(disk.history) <= disk.history
    ensures !removed ==> !ok && disk.files == old(disk.files) && disk.history == old(disk.history)
    ensures removed ==> Truthful(env, ArtifactOf(old(disk.files)), target, vouched, disk.files)
    ensures removed ==> forall i :: |old(disk.history)| <= i < |disk.history| ==>
                                      Truthful(env, ArtifactOf(old(disk.files)), target, vouched, disk.history[i])
    ensures ok ==> removed && Artifact in old(disk.files) && Temps(disk.files) == Temps(old(disk.files))
    ensures ok ==> var plan := Planned(env, ArtifactOf(old(disk.files)), target, vouched);
                   plan.Some? && Settled(disk.files) == Published(Settled(old(disk.files)) - {Side(Index)}, plan.value)
  {
    hide Releasable, FactsOf, PlanOf, Settled, Temps, AllConsistent, Consistent, Published;
    ok, removed := false, false;
    ghost var artifact := ArtifactOf(disk.files);
    var r := disk.Remove(Side(Index));
    if r == Failed { return; }
    removed := true;
    assert Side(Index) !in disk.files;
    WithoutIndex(old(disk.files));
    var got, bytes := disk.Read(Artifact);
    if got != Done { return; }
    var plan := MakePlan(env, bytes, target, vouched);
    if plan.None? { return; }
    ghost var before := disk.history;
    ok := Publish(disk, windows, plan.value);
    PublishingIsTruthful(env, artifact, target, vouched, disk.history, |before| - 1);
  }

  // ---------------------------------------------------------------- how it is checked

  /** `read_bounded`. */
  function Bounded(s: Files, k: Sidecar): (r: Option<Bytes>)
  {
    if Side(k) in s && |s[Side(k)]| <= MAX_SIDECAR_BYTES then Some(s[Side(k)]) else None
  }

  function BoundedDoc(env: Env, s: Files, k: Sidecar, kind: DocKind): (r: Option<Doc>)
  {
    var b := Bounded(s, k);
    if b.None? then None else env.parse(kind, b.value)
  }

  /** The file is the one the evidence names and holds the document. */
  predicate Attested(env: Env, s: Files, k: Sidecar, evidence: DocumentEvidence, doc: Doc)
  {
    var b := Bounded(s, k);
    b.Some? && |b.value| == evidence.size && env.hash(b.value) == evidence.sha256
    && env.parse(KindOf(doc), b.value) == Some(doc)
  }

  /** The index is there and every part of it agrees with the artifact and the files beside it. */
  ghost predicate Accepts(env: Env, s: Files, index: EvidenceIndex)
  {
    && BoundedDoc(env, s, Index, IndexKind) == Some(IndexDoc(index))
    && index.version == EVIDENCE_VERSION && index.kind == "tysel-single-executable" && index.target != ""
    && Artifact in s && index.size == |s[Artifact]| && index.sha256 == env.hash(s[Artifact])
    && var f := FactsOf(env, s[Artifact]);
    && f.Some?
    && index.applicationId == f.value.tap.applicationId && index.executionProfile == f.value.tap.executionProfile
    && index.compatibility == env.report(f.value.tap.payload)
    && index.inventorySha256 == env.hash(f.value.inventoryBytes)
    && Bounded(s, Checksum) == Some(env.text(index.sha256 + "\n"))
    && BoundedDoc(env, s, Compatibility, ReportKind) == Some(ReportDoc(index.compatibility))
    && Attested(env, s, Sbom, index.sbom, BomDoc(BomOf(f.value.tap, index.sha256, f.value.inventory)))
    && Attested(env, s, Licenses, index.licenses, LicensesDoc(LicensesOf(f.value.inventory)))
  }

  predicate SameComponent(c: BomComponent, l: Licensed)
  {
    c.name == l.name && c.version == Some(l.version) && c.purl == Some(l.purl) && c.licenses == [l.license]
  }

  predicate Matching(bom: Bom, licenses: LicenseInventory)
  {
    && |bom.components| == |licenses.components|
    && forall i :: 0 <= i < |bom.components| ==> SameComponent(bom.components[i], licenses.components[i])
  }

  /** The cross-checks between the two documents, component by component. */
  method CrossCheck(bom: Bom, licenses: LicenseInventory) returns (ok: bool)
    ensures ok <==> Matching(bom, licenses)
  {
    if |bom.components| != |licenses.components| { return false; }
    for i := 0 to |bom.components|
      invariant forall j :: 0 <= j < i ==> SameComponent(bom.components[j], licenses.components[j])
    {
      if !SameComponent(bom.components[i], licenses.components[i]) { return false; }
    }
    ok := true;
  }

  method VerifyDocument(env: Env, s: Files, k: Sidecar, evidence: DocumentEvidence) returns (r: Option<Bytes>)
    ensures r.Some? <==>
              Bounded(s, k).Some? && |Bounded(s, k).value| == evidence.size &&
              env.hash(Bounded(s, k).value) == evidence.sha256
    ensures r.Some? ==> r == Bounded(s, k)
  {
    r := Bounded(s, k);
    if r.None? || |r.value| != evidence.size || env.hash(r.value) != evidence.sha256 { return None; }
  }

  /** The two supply-chain documents. The checks after the comparison with what the artifact
      implies never fail. */
  method VerifySupplyChain(env: Env, s: Files, index: EvidenceIndex, tap: Tap, inventory: Inventory) returns (ok: bool)
    ensures ok <==> && Attested(env, s, Sbom, index.sbom, BomDoc(BomOf(tap, index.sha256, inventory)))
                    && Attested(env, s, Licenses, index.licenses, LicensesDoc(LicensesOf(inventory)))
  {
    var sbomBytes := VerifyDocument(env, s, Sbom, index.sbom);
    if sbomBytes.None? { return false; }
    var licenseBytes := VerifyDocument(env, s, Licenses, index.licenses);
    if licenseBytes.None? { return false; }
    var sbom := env.parse(BomKind, sbomBytes.value);
    if sbom.None? || !sbom.value.BomDoc? { return false; }
    var licenses := env.parse(LicensesKind, licenseBytes.value);
    if licenses.None? || !licenses.value.LicensesDoc? { return false; }
    if sbom.value.bom != BomOf(tap, index.sha256, inventory) { return false; }
    if licenses.value.licenses != LicensesOf(inventory) { return false; }
    var identified := BomHash("SHA-256", index.sha256) in sbom.value.bom.application.hashes;
    var matching := CrossCheck(sbom.value.bom, licenses.value.licenses);
    assert identified && matching;
    ok := identified && matching;
  }

  /** `verify_release_evidence`, on files that can be read. */
  method VerifyEvidence(env: Env, s: Files) returns (r: Option<EvidenceIndex>)
    ensures r.Some? ==> Accepts(env, s, r.value)
    ensures r.None? ==> forall index :: !Accepts(env, s, index)
  {
    hide InventoryOf, Attested, BomOf, LicensesOf;
    var doc := BoundedDoc(env, s, Index, IndexKind);
    if doc.None? || !doc.value.IndexDoc? { return None; }
    var index := doc.value.index;
    if index.version != EVIDENCE_VERSION || Artifact !in s { return None; }
    var artifact := s[Artifact];
    if |artifact| != index.size || env.hash(artifact) != index.sha256 { return None; }
    if index.kind != "tysel-single-executable" || index.target == "" { return None; }
    var tap := env.tap(artifact);
    if tap.None? { return None; }
    var inventory := RuntimeInventory(env, artifact);
    if inventory.None? { return None; }
    if tap.value.applicationId != index.applicationId || tap.value.executionProfile != index.executionProfile {
      return None;
    }
    if env.report(tap.value.payload) != index.compatibility { return None; }
    var checksum := Bounded(s, Checksum);
    if checksum.None? || checksum.value != env.text(index.sha256 + "\n") { return None; }
    var compatibility := BoundedDoc(env, s, Compatibility, ReportKind);
    if compatibility != Some(ReportDoc(index.compatibility)) { return None; }
    var supplied := VerifySupplyChain(env, s, index, tap.value, inventory.value.0);
    if !supplied || index.inventorySha256 != env.hash(inventory.value.1) { return None; }
    r := Some(index);
  }

  // ---------------------------------------------------------------- the two agree

  predicate Fits(plan: Plan) { forall k :: |Content(plan, k)| <= MAX_SIDECAR_BYTES }

  lemma Reads(env: Env, d: Doc)
    requires RoundTrips(env)
    ensures env.parse(KindOf(d), env.json(d)) == Some(d)
  {
  }

  lemma InPlace(s: Files, base: Files, plan: Plan)
    requires Settled(s) == Published(base, plan)
    ensures forall k :: Side(k) in s && s[Side(k)] == Content(plan, k)
  {
    forall k ensures Side(k) in s && s[Side(k)] == Content(plan, k) {
      match k {
        case Checksum => assert Side(k) in Settled(s);
        case Compatibility => assert Side(k) in Settled(s);
        case Sbom => assert Side(k) in Settled(s);
        case Licenses => assert Side(k) in Settled(s);
        case Index => assert Side(k) in Settled(s);
      }
    }
  }

  /** A completed write on an unchanged artifact is accepted, with the index that was written,
      just when the target has a name and no sidecar is over the limit that only the reader
      checks. */
  lemma WrittenIsAccepted(env: Env, s: Files, base: Files, target: string, vouched: bool)
    requires RoundTrips(env) && Artifact in s && Releasable(env, s[Artifact], vouched)
    requires Settled(s) == Published(base, PlanOf(env, s[Artifact], FactsOf(env, s[Artifact]).value, target))
    ensures var f := FactsOf(env, s[Artifact]).value;
            Accepts(env, s, IndexOf(env, s[Artifact], f, target)) <==>
              target != "" && Fits(PlanOf(env, s[Artifact], f, target))
    ensures forall index :: Accepts(env, s, index) ==>
              index == IndexOf(env, s[Artifact], FactsOf(env, s[Artifact]).value, target)
  {
    hide InventoryOf, BomOf, LicensesOf;
    var f := FactsOf(env, s[Artifact]).value;
    var plan := PlanOf(env, s[Artifact], f, target);
    var index := IndexOf(env, s[Artifact], f, target);
    InPlace(s, base, plan);
    assert env.parse(IndexKind, plan.index) == Some(IndexDoc(index)) by { Reads(env, IndexDoc(index)); }
    Reads(env, ReportDoc(index.compatibility));
    Reads(env, BomDoc(BomOf(f.tap, index.sha256, f.inventory)));
    Reads(env, LicensesDoc(LicensesOf(f.inventory)));
    if target != "" && Fits(plan) {
      assert forall k :: Bounded(s, k) == Some(Content(plan, k));
      assert Accepts(env, s, index);
    }
    if Accepts(env, s, index) {
      forall k ensures |Content(plan, k)| <= MAX_SIDECAR_BYTES {
        assert Bounded(s, k).Some?;
      }
    }
  }

  /** So evidence written for a target without a name is complete and is still refused. */
  lemma UnnamedTargetIsRefused(env: Env, s: Files, base: Files, vouched: bool, index: EvidenceIndex)
    requires RoundTrips(env) && Artifact in s && Releasable(env, s[Artifact], vouched)
    requires Settled(s) == Published(base, PlanOf(env, s[Artifact], FactsOf(env, s[Artifact]).value, ""))
    ensures !Accepts(env, s, index)
  {
    WrittenIsAccepted(env, s, base, "", vouched);
  }
}
