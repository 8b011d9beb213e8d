/** Sealed attempt bundles: staging, seal, verification and publication.

    A digest stands for what was hashed (SHA-256 of canonical JSON taken to be injective), and a path
    for its position in the sorted scan of a bundle. */
module Bundles {
  import opened Ascending
  import opened Journal
  import opened Sequences

  type Path = int
  const MANIFEST: Path := 0
  const SEAL: Path := 1

  datatype File =
    | Raw(bytes: seq<int>)
    | ManifestFile(manifest: Manifest, encodedSize: nat)
    | SealFile(seal: Seal, encodedSize: nat)

  datatype Digest =
    | OfFile(file: File)
    | OfManifest(attemptId: Attempt, attempt: Attempt, files: seq<Receipt>)
    | OfSeal(attemptId: Attempt, manifestIdentity: Digest, receipt: Receipt)

  datatype Receipt = Receipt(path: Path, size: nat, sha256: Digest)

  datatype Manifest = Manifest(attemptId: Attempt, attempt: Attempt, files: seq<Receipt>, identity: Digest)

  datatype Seal = Seal(attemptId: Attempt, manifestIdentity: Digest, manifest: Receipt, identity: Digest)

  type Tree = map<Path, File>

  function Size(file: File): (r: nat) {
    match file
    case Raw(bytes) => |bytes|
    case ManifestFile(_, size) => size
    case SealFile(_, size) => size
  }

  function ReceiptOf(path: Path, file: File): (r: Receipt) {
    Receipt(path, Size(file), OfFile(file))
  }

  function ReceiptsOf(tree: Tree, paths: seq<Path>): (r: seq<Receipt>)
    requires forall p :: p in paths ==> p in tree
  {
    seq(|paths|, i requires 0 <= i < |paths| => ReceiptOf(paths[i], tree[paths[i]]))
  }

  /** `_scan_payload`: receipts of every file not excluded, in path order. */
  ghost function Scan(tree: Tree, exclude: set<Path>): (r: seq<Receipt>) {
    ReceiptsOf(tree, Sorted(tree.Keys - exclude))
  }

  lemma {:induction false} ScanAgrees(a: Tree, xa: set<Path>, b: Tree, xb: set<Path>)
    requires a.Keys - xa == b.Keys - xb
    requires forall p :: p in a && p !in xa ==> p in b && a[p] == b[p]
    ensures Scan(a, xa) == Scan(b, xb)
  {
    var paths := Sorted(a.Keys - xa);
    assert forall i :: 0 <= i < |paths| ==> paths[i] in paths;
  }

  lemma {:induction false} ReceiptsDetermine(a: Tree, pa: seq<Path>, b: Tree, pb: seq<Path>)
    requires forall p :: p in pa ==> p in a
    requires forall p :: p in pb ==> p in b
    requires ReceiptsOf(a, pa) == ReceiptsOf(b, pb)
    ensures pa == pb && forall p :: p in pa ==> a[p] == b[p]
  {
    assert |pa| == |pb|;
    forall i | 0 <= i < |pa| ensures pa[i] == pb[i] && a[pa[i]] == b[pb[i]] {
      assert pa[i] in pa && pb[i] in pb;
      assert ReceiptsOf(a, pa)[i] == ReceiptOf(pa[i], a[pa[i]]);
      assert ReceiptsOf(b, pb)[i] == ReceiptOf(pb[i], b[pb[i]]);
    }
  }

  lemma {:induction false} ScanDetermines(a: Tree, b: Tree, exclude: set<Path>)
    requires Scan(a, exclude) == Scan(b, exclude)
    ensures a.Keys - exclude == b.Keys - exclude
    ensures forall p :: p in a && p !in exclude ==> p in b && a[p] == b[p]
  {
    var pa, pb := Sorted(a.Keys - exclude), Sorted(b.Keys - exclude);
    ReceiptsDetermine(a, pa, b, pb);
    assert forall p :: p in pa <==> p in a.Keys - exclude;
    assert forall p :: p in pb <==> p in b.Keys - exclude;
  }

  function Contents(tree: Tree): (r: Tree) {
    tree - {MANIFEST, SEAL}
  }

  // ---- sealing

  function ManifestFor(attempt: Attempt, receipts: seq<Receipt>): (r: Manifest) {
    Manifest(attempt, attempt, receipts, OfManifest(attempt, attempt, receipts))
  }

  function SealFor(attempt: Attempt, manifest: Manifest, receipt: Receipt): (r: Seal) {
    Seal(attempt, manifest.identity, receipt, OfSeal(attempt, manifest.identity, receipt))
  }

  /** The first half of `seal_attempt_staging`: check the contents, create the manifest. `size` is the
      length of the manifest's encoding. */
  ghost function WriteManifest(tree: Tree, attempt: Attempt, required: seq<Path>, size: nat): (r: Result<Tree>) {
    if SEAL in tree then Err("attempt staging is already sealed")
    else if !NoRepeat(required) then Err("required attempt paths are duplicated")
    else if tree.Keys != set p | p in required then Err("attempt staging contents differ from required payload")
    else
      var file := ManifestFile(ManifestFor(attempt, Scan(tree, {})), size);
      if MANIFEST in tree && tree[MANIFEST] != file then Err("conflicting create-only artifact")
      else Ok(tree[MANIFEST := file])
  }

  /** The second half: seal the manifest as read back from disk. */
  function WriteSeal(tree: Tree, attempt: Attempt, size: nat): (r: Result<Tree>)
    requires MANIFEST in tree && tree[MANIFEST].ManifestFile?
  {
    var file := SealFile(SealFor(attempt, tree[MANIFEST].manifest, ReceiptOf(MANIFEST, tree[MANIFEST])), size);
    if SEAL in tree && tree[SEAL] != file then Err("conflicting create-only artifact")
    else Ok(tree[SEAL := file])
  }

  // ---- verification

  /** The manifest and the seal carry their own digests, and the seal binds the manifest file. */
  predicate SelfConsistent(manifest: Manifest, manifestSize: nat, seal: Seal) {
    && manifest.identity == OfManifest(manifest.attemptId, manifest.attempt, manifest.files)
    && seal.identity == OfSeal(seal.attemptId, seal.manifestIdentity, seal.manifest)
    && seal.manifestIdentity == manifest.identity
    && seal.manifest == ReceiptOf(MANIFEST, ManifestFile(manifest, manifestSize))
  }

  /** `verify_attempt_bundle`. */
  ghost function Verify(tree: Tree, expected: Option<Attempt>): (r: Result<(Manifest, Seal)>) {
    if MANIFEST !in tree || SEAL !in tree then Err("manifest or seal is missing")
    else if !tree[MANIFEST].ManifestFile? || !tree[SEAL].SealFile? then Err("attempt manifest and seal must be objects")
    else
      var manifest, seal := tree[MANIFEST].manifest, tree[SEAL].seal;
      if manifest.identity != OfManifest(manifest.attemptId, manifest.attempt, manifest.files) then
        Err("attempt manifest identity mismatch")
      else if seal.identity != OfSeal(seal.attemptId, seal.manifestIdentity, seal.manifest) then
        Err("attempt seal identity mismatch")
      else if seal.manifestIdentity != manifest.identity then Err("attempt seal does not bind manifest")
      else if seal.manifest != ReceiptOf(MANIFEST, tree[MANIFEST]) then Err("attempt seal manifest receipt mismatch")
      else if manifest.files != Scan(tree, {MANIFEST, SEAL}) then Err("attempt bundle payload digest mismatch")
      else if expected.Some? && (manifest.attemptId != expected.value || manifest.attempt != expected.value) then
        Err("attempt bundle identity differs from expected attempt")
      else Ok((manifest, seal))
  }

  function PathsOf(receipts: seq<Receipt>): (r: seq<Path>) {
    seq(|receipts|, i requires 0 <= i < |receipts| => receipts[i].path)
  }

  /** The receipts are exactly those of the payload: its paths in order, the size and bytes of each. */
  ghost predicate ListsContents(files: seq<Receipt>, tree: Tree) {
    && StrictlyAscending(PathsOf(files))
    && (forall p :: p in PathsOf(files) <==> p in Contents(tree))
    && (forall i :: 0 <= i < |files| ==>
          files[i].path in tree && files[i] == ReceiptOf(files[i].path, tree[files[i].path]))
  }

  lemma {:induction false} ScanLists(tree: Tree, files: seq<Receipt>)
    ensures files == Scan(tree, {MANIFEST, SEAL}) <==> ListsContents(files, tree)
  {
    var keys := tree.Keys - {MANIFEST, SEAL};
    var paths := Sorted(keys);
    assert forall p :: p in Contents(tree) <==> p in keys;
    if files == ReceiptsOf(tree, paths) {
      assert forall i :: 0 <= i < |files| ==> files[i] == ReceiptOf(paths[i], tree[paths[i]]);
      assert PathsOf(files) == paths;
      assert forall i :: 0 <= i < |paths| ==> paths[i] in paths;
    }
    if ListsContents(files, tree) {
      SortedIsUnique(PathsOf(files), keys);
      assert files == ReceiptsOf(tree, paths);
    }
  }

  /** With a self-consistent manifest and seal, a directory is accepted exactly when its payload paths,
      sizes and bytes are those the manifest lists. */
  lemma {:induction false} AcceptedExactlyWhenListed(tree: Tree, manifest: Manifest, manifestSize: nat, seal: Seal,
                                                     sealSize: nat, expected: Option<Attempt>)
    requires MANIFEST in tree && tree[MANIFEST] == ManifestFile(manifest, manifestSize)
    requires SEAL in tree && tree[SEAL] == SealFile(seal, sealSize)
    requires SelfConsistent(manifest, manifestSize, seal)
    ensures Verify(tree, expected).Ok? <==>
      && ListsContents(manifest.files, tree)
      && (expected.Some? ==> manifest.attemptId == expected.value && manifest.attempt == expected.value)
  {
    ScanLists(tree, manifest.files);
  }

  /** A seal determines its bundle: two accepted directories with the same seal file are identical. */
  lemma {:induction false} SealDeterminesBundle(a: Tree, b: Tree)
    requires Verify(a, None).Ok? && Verify(b, None).Ok?
    requires a[SEAL] == b[SEAL]
    ensures a == b
  {
    var ma, mb := a[MANIFEST], b[MANIFEST];
    assert a[SEAL].seal.manifest.sha256 == OfFile(ma) && b[SEAL].seal.manifest.sha256 == OfFile(mb);
    assert Scan(a, {MANIFEST, SEAL}) == Scan(b, {MANIFEST, SEAL});
    ScanDetermines(a, b, {MANIFEST, SEAL});
    assert a.Keys == (a.Keys - {MANIFEST, SEAL}) + {MANIFEST, SEAL};
    assert b.Keys == (b.Keys - {MANIFEST, SEAL}) + {MANIFEST, SEAL};
  }

  /** A manifest cannot list its own digest, so a `manifest.json` in the payload is a conflict. */
  lemma {:induction false} ManifestIsNotListed(tree: Tree, attempt: Attempt, size: nat)
    requires MANIFEST in tree
    ensures tree[MANIFEST] != ManifestFile(ManifestFor(attempt, Scan(tree, {})), size)
  {
    var paths := Sorted(tree.Keys - {});
    assert MANIFEST in paths;
    var i :| 0 <= i < |paths| && paths[i] == MANIFEST;
    assert Scan(tree, {})[i] == ReceiptOf(MANIFEST, tree[MANIFEST]);
    assert Scan(tree, {})[i].sha256.file == tree[MANIFEST];
  }

  lemma {:induction false} SealedTree(tree: Tree, manifest: File, seal: File)
    requires MANIFEST !in tree && SEAL !in tree
    ensures var t := tree[MANIFEST := manifest][SEAL := seal];
      Contents(t) == tree && Scan(t, {MANIFEST, SEAL}) == Scan(tree, {})
  {
    var t := tree[MANIFEST := manifest][SEAL := seal];
    assert tree.Keys - {} == t.Keys - {MANIFEST, SEAL};
    ScanAgrees(tree, {}, t, {MANIFEST, SEAL});
  }

  lemma {:induction false} WriteManifestExactly(tree: Tree, attempt: Attempt, required: seq<Path>, size: nat)
    ensures WriteManifest(tree, attempt, required, size).Ok? <==>
      && SEAL !in tree && MANIFEST !in tree && NoRepeat(required) && tree.Keys == set p | p in required
  {
    if MANIFEST in tree {
      ManifestIsNotListed(tree, attempt, size);
    }
  }

  /** Sealing a payload yields a directory that verification accepts for that attempt, with the
      payload untouched. */
  lemma {:induction false} SealedStagingVerifies(tree: Tree, attempt: Attempt, required: seq<Path>,
                                                 manifestSize: nat, sealSize: nat)
    requires WriteManifest(tree, attempt, required, manifestSize).Ok?
    ensures var t := WriteSeal(WriteManifest(tree, attempt, required, manifestSize).value, attempt, sealSize);
      t.Ok? && Verify(t.value, Some(attempt)).Ok? && Contents(t.value) == tree
  {
    WriteManifestExactly(tree, attempt, required, manifestSize);
    var manifest := ManifestFor(attempt, Scan(tree, {}));
    var file := ManifestFile(manifest, manifestSize);
    var seal := SealFile(SealFor(attempt, manifest, ReceiptOf(MANIFEST, file)), sealSize);
    SealedTree(tree, file, seal);
  }

  // ---- the store

  method ScanPayload(tree: Tree, exclude: set<Path>) returns (receipts: seq<Receipt>)
    ensures receipts == Scan(tree, exclude)
  {
    receipts := [];
    var paths := SortSet(tree.Keys);
    ghost var kept: seq<Path> := [];
    var i := 0;
    while i < |paths|
      invariant i <= |paths|
      invariant forall p :: p in kept <==> p in paths[..i] && p !in exclude
      invariant StrictlyAscending(kept)
      invariant receipts == ReceiptsOf(tree, kept)
    {
      assert paths[i] in paths && paths[..i + 1] == paths[..i] + [paths[i]];
      if paths[i] !in exclude {
        forall k | 0 <= k < |kept| ensures kept[k] < paths[i] {
          assert kept[k] in kept;
          var j :| 0 <= j < i && paths[j] == kept[k];
        }
        receipts := receipts + [ReceiptOf(paths[i], tree[paths[i]])];
        kept := kept + [paths[i]];
      }
      i := i + 1;
    }
    assert paths[..i] == paths;
    SortedIsUnique(kept, tree.Keys - exclude);
  }

  method VerifyAttemptBundle(tree: Tree, expected: Option<Attempt>) returns (r: Result<(Manifest, Seal)>)
    ensures r.Ok? == Verify(tree, expected).Ok?
    ensures r.Ok? ==> r == Verify(tree, expected)
  {
    if MANIFEST !in tree || SEAL !in tree || !tree[MANIFEST].ManifestFile? || !tree[SEAL].SealFile? {
      return Err("manifest or seal is missing or malformed");
    }
    var manifest, seal := tree[MANIFEST].manifest, tree[SEAL].seal;
    if !SelfConsistent(manifest, tree[MANIFEST].encodedSize, seal) {
      return Err("attempt manifest or seal identity mismatch");
    }
    var actual := ScanPayload(tree, {MANIFEST, SEAL});
    if manifest.files != actual {
      return Err("attempt bundle payload digest mismatch");
    }
    if expected.Some? && (manifest.attemptId != expected.value || manifest.attempt != expected.value) {
      return Err("attempt bundle identity differs from expected attempt");
    }
    return Ok((manifest, seal));
  }

  class BundleStore {
    var staging: map<Attempt, Tree>
    var published: map<Attempt, Tree>

    /** Both files are written, or nothing is. */
    method SealAttemptStaging(attempt: Attempt, required: seq<Path>, manifestSize: nat,
                              sealSize: nat) returns (r: Result<()>)
      requires attempt in staging
      modifies this`staging
      ensures r.Ok? <==>
        && SEAL !in old(staging)[attempt] && MANIFEST !in old(staging)[attempt] && NoRepeat(required)
        && old(staging)[attempt].Keys == set p | p in required
      ensures r.Ok? ==> attempt in staging
      ensures r.Ok? ==>
        Verify(staging[attempt], Some(attempt)).Ok? && Contents(staging[attempt]) == old(staging)[attempt]
      ensures r.Ok? ==> staging - {attempt} == old(staging) - {attempt}
      ensures r.Err? ==> staging == old(staging)
    {
      var tree := staging[attempt];
      if SEAL in tree {
        return Err("attempt staging is already sealed");
      }
      if !NoRepeat(required) {
        return Err("required attempt paths are duplicated");
      }
      if tree.Keys != set p | p in required {
        return Err("attempt staging contents differ from required payload");
      }
      var receipts := ScanPayload(tree, {});
      var manifest := ManifestFor(attempt, receipts);
      WriteManifestExactly(tree, attempt, required, manifestSize);
      if MANIFEST in tree && tree[MANIFEST] != ManifestFile(manifest, manifestSize) {
        return Err("conflicting create-only artifact");
      }
      staging := staging[attempt := tree[MANIFEST := ManifestFile(manifest, manifestSize)]];
      var seal := SealFor(attempt, manifest, ReceiptOf(MANIFEST, staging[attempt][MANIFEST]));
      staging := staging[attempt := staging[attempt][SEAL := SealFile(seal, sealSize)]];
      SealedStagingVerifies(tree, attempt, required, manifestSize, sealSize);
      return Ok(());
    }

    /** Publication moves a verified staging directory to a free destination, or moves nothing. */
    method PublishAttemptBundle(attempt: Attempt) returns (r: Result<()>)
      requires attempt in staging
      modifies this
      ensures r.Ok? <==> Verify(old(staging)[attempt], Some(attempt)).Ok? && attempt !in old(published)
      ensures r.Ok? ==>
        published == old(published)[attempt := old(staging)[attempt]] && staging == old(staging) - {attempt}
      ensures r.Err? ==> published == old(published) && staging == old(staging)
    {
      var first := VerifyAttemptBundle(staging[attempt], Some(attempt));
      if first.Err? {
        return Err(first.reason);
      }
      if attempt in published {
        return Err("attempt bundle destination exists");
      }
      published := published[attempt := staging[attempt]];
      staging := staging - {attempt};
      var second := VerifyAttemptBundle(published[attempt], Some(attempt));
      if second.Err? {
        assert false;  // the renamed directory holds the bytes just verified
      }
      return Ok(());
    }
  }
}
