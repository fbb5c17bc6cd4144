/** Durable receipt storage (app/services/storage.py) over an abstract disk. */
module Storage {
  import opened Schema

  newtype byte = x: int | 0 <= x < 256

  type Data = seq<byte>

  type Files = map<string, Data>

  /** sha256 as an arbitrary function; what needs collision-freedom says so. */
  type Hash = Data -> string

  ghost predicate CollisionFree(h: Hash) {
    forall a: Data, b: Data | h(a) == h(b) :: a == b
  }

  const MAX_RECEIPT_BYTES: nat := 32 * 1024 * 1024

  /** The receipts directory. */
  class Disk {
    var files: Files
  }

  /** What normalization makes of a download: the file it writes, and whether it says it converted it. */
  datatype Normalized = Normalized(content: Data, converted: bool)

  datatype StoredFile = StoredFile(path: string, bytes: nat, sha256: string, converted: bool)

  predicate Acceptable(data: Data, expected: Option<nat>) {
    data != [] && (expected.Some? ==> |data| == expected.value) && |data| <= MAX_RECEIPT_BYTES
  }

  /** The outcome of storing a download: it succeeds exactly when nothing is in doubt. */
  function StoreOutcome(h: Hash, data: Data, expected: Option<nat>, path: string,
                        normalized: Option<Normalized>, landed: Data): Result<StoredFile> {
    if Acceptable(data, expected) && normalized.Some? && |landed| == |normalized.value.content|
       && (normalized.value.converted || h(landed) == h(data))
    then Success(StoredFile(path, |landed|, h(landed), normalized.value.converted))
    else Failure
  }

  /**
   Store a download at the fresh path `path`.  `normalized` is None when the type
   is unsupported or normalization fails, and `landed` is what reading the final
   file back returns, which a failing disk can make anything.  A failure leaves
   no file behind.
  */
  method StoreReceiptBytes(disk: Disk, h: Hash, data: Data, expected: Option<nat>, path: string,
                           normalized: Option<Normalized>, landed: Data)
    returns (r: Result<StoredFile>)
    requires path !in disk.files
    modifies disk
    ensures r == StoreOutcome(h, data, expected, path, normalized, landed)
    ensures disk.files == if r.Success? then old(disk.files)[path := landed] else old(disk.files)
  {
    if data == [] {
      return Failure;
    }
    if expected.Some? && |data| != expected.value {
      return Failure;
    }
    if |data| > MAX_RECEIPT_BYTES {
      return Failure;
    }
    var sourceSha := h(data);
    if normalized.None? {
      return Failure;
    }
    ghost var before := disk.files;
    disk.files := disk.files[path := landed];
    var storedSha, storedSize := h(landed), |landed|;
    if storedSize != |normalized.value.content| || (!normalized.value.converted && storedSha != sourceSha) {
      disk.files := disk.files - {path};
      assert disk.files == before;
      return Failure;
    }
    return Success(StoredFile(path, storedSize, storedSha, normalized.value.converted));
  }

  /** The tests: not empty, whole, at most 32 MiB, understood, read back whole, and unchanged unless converted. */
  lemma StoredExactly(h: Hash, data: Data, expected: Option<nat>, path: string,
                      normalized: Option<Normalized>, landed: Data)
    ensures var r := StoreOutcome(h, data, expected, path, normalized, landed);
            && (r.Success? <==>
                  && 1 <= |data| <= 33554432 && (expected == None || expected == Some(|data|))
                  && normalized.Some? && |landed| == |normalized.value.content|
                  && (normalized.value.converted || h(landed) == h(data)))
            && (r.Success? ==>
                  r.value.path == path && r.value.bytes == |landed| && r.value.sha256 == h(landed)
                  && r.value.converted == normalized.value.converted)
  {
  }

  /** What `assert_durable` checks. */
  predicate Durable(h: Hash, files: Files, path: string, sha256: string, bytes: nat) {
    path in files && |files[path]| == bytes && h(files[path]) == sha256
  }

  method AssertDurable(disk: Disk, h: Hash, path: string, sha256: string, bytes: nat) returns (ok: bool)
    ensures ok == Durable(h, disk.files, path, sha256, bytes)
    ensures ok <==> path in disk.files && |disk.files[path]| == bytes && h(disk.files[path]) == sha256
  {
    if path !in disk.files {
      return false;
    }
    var size := |disk.files[path]|;
    if size != bytes {
      return false;
    }
    var actual := h(disk.files[path]);
    if actual != sha256 {
      return false;
    }
    return true;
  }

  /** `unlink(missing_ok=True)`. */
  method DeleteStoredFile(disk: Disk, path: string)
    modifies disk
    ensures disk.files == old(disk.files) - {path}
  {
    disk.files := disk.files - {path};
  }

  /**
   An image that normalization re-encodes without saying so, as it does when it
   only rotates, is refused on a sound disk; one it keeps or declares as converted
   is stored exactly when the download is acceptable.
  */
  lemma UndeclaredConversionIsRefused(h: Hash, data: Data, expected: Option<nat>, path: string, n: Normalized)
    requires CollisionFree(h)
    ensures StoreOutcome(h, data, expected, path, Some(n), n.content).Success? <==>
            Acceptable(data, expected) && (n.converted || n.content == data)
  {
  }

  /** A durable file with the checksum of an upload is that upload, byte for byte. */
  lemma DurableIsTheUpload(h: Hash, files: Files, path: string, sha256: string, bytes: nat, upload: Data)
    requires CollisionFree(h) && sha256 == h(upload) && Durable(h, files, path, sha256, bytes)
    ensures files[path] == upload && bytes == |upload|
  {
  }
}
