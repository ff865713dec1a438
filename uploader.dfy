/** The partitioned uploader: a document's file is written as numbered part
    objects, each part's bytes are added to a progress counter once the part
    is stored, and after every part has been stored the document, marked as
    partitioned, is written as the manifest under its id. */
module PartitionedUpload {
  import opened Values
  import opened Storage
  import opened Partitions
  import Records

  const PartitionedStorage := "partitioned"

  /** A document the uploader can work on: a byte size, and a part size that
      is either unset or positive. */
  predicate Uploadable(fields: Bag) {
    var size := Get(fields, Size);
    var partSize := Get(fields, PartSize);
    size.Num? && size.n >= 0 && (Truthy(partSize) ==> partSize.Num? && partSize.n > 0)
  }

  /** The write of part `p`. */
  function PartOp(url: string, file: seq<bv8>, partSize: nat, p: nat): (op: Op) {
    Put(Str(PartName(url, p)), Bytes(Slice(file, partSize, p)), PublicOptions)
  }

  /** The writes of the given parts, in the given order. */
  function PartOps(url: string, file: seq<bv8>, partSize: nat, ps: seq<nat>): (ops: seq<Op>)
    ensures |ops| == |ps|
  {
    if ps == [] then []
    else PartOps(url, file, partSize, ps[..|ps| - 1]) + [PartOp(url, file, partSize, ps[|ps| - 1])]
  }

  lemma PartOpsStep(url: string, file: seq<bv8>, partSize: nat, ps: seq<nat>, k: nat)
    requires k < |ps|
    ensures PartOps(url, file, partSize, ps[..k + 1]) ==
      PartOps(url, file, partSize, ps[..k]) + [PartOp(url, file, partSize, ps[k])]
  {
    assert ps[..k + 1][..k] == ps[..k];
  }

  /** The document as `uploadDocument` leaves it before writing it. */
  function Marked(fields: Bag, numParts: nat, partSize: nat): (marked: Bag) {
    fields[StorageType := Str(PartitionedStorage)][NumPartsCamel := Num(numParts)][PartSize := Num(partSize)]
  }

  /** The position in `order` of the first part whose write is rejected
      (`|order|` when none is). */
  function FirstFailure(order: seq<nat>, failing: set<nat>): (k: nat)
    ensures k <= |order|
    ensures forall j :: 0 <= j < k ==> order[j] !in failing
    ensures k < |order| ==> order[k] in failing
  {
    if order == [] || order[0] in failing then 0
    else 1 + FirstFailure(order[1..], failing)
  }

  /** A counter of the bytes uploaded so far, out of a known total. */
  class ProgressRegister {
    const total: int
    var completed: int

    constructor (total: int)
      ensures this.total == total && completed == 0
    {
      this.total := total;
      completed := 0;
    }

    method Add(n: nat)
      modifies this
      ensures completed == old(completed) + n
    {
      completed := completed + n;
    }
  }

  class PartitionedUploader {
    const document: Records.Record
    /** The local file: the bytes the document describes. */
    const file: seq<bv8>
    const size: nat
    const partSize: nat
    const numParts: nat
    const progress: ProgressRegister

    /** What the constructor establishes and every method relies on. */
    predicate Valid() {
      partSize > 0 && numParts == NumPartsFor(size, partSize)
    }

    /** `defaultPartSize` is the configured file part size. */
    constructor (document: Records.Record, file: seq<bv8>, defaultPartSize: nat)
      requires defaultPartSize > 0 && Uploadable(document.fields)
      ensures Valid()
      ensures this.document == document && this.file == file
      ensures size == Get(document.fields, Size).n
      ensures partSize == if Truthy(Get(document.fields, PartSize))
                          then Get(document.fields, PartSize).n else defaultPartSize
      ensures fresh(progress) && progress.total == size && progress.completed == 0
    {
      this.document := document;
      this.file := file;
      size := Get(document.fields, Size).n;
      var chosen := if Truthy(Get(document.fields, PartSize)) then Get(document.fields, PartSize).n else defaultPartSize;
      partSize := chosen;
      numParts := NumPartsFor(Get(document.fields, Size).n, chosen);
      progress := new ProgressRegister(Get(document.fields, Size).n);
    }

    /** The bytes of part `p`. */
    function FileSlice(p: nat): (s: seq<bv8>)
      requires Valid()
      ensures |s| <= partSize
      ensures s == file[SliceStart(partSize, p, |file|)..SliceEnd(partSize, p, |file|)]
    {
      SliceLength(file, partSize, p);
      Slice(file, partSize, p)
    }

    /** Writes part `partNumber` under `url + ".part" + partNumber`. */
    method UploadPart(store: Storage.Store, partNumber: nat, accepted: bool) returns (r: Outcome)
      requires Valid()
      modifies store
      ensures var op := PartOp(BaseName(), file, partSize, partNumber);
              (accepted ==> r == Pass && store.log == old(store.log) + [op] &&
                            store.files == Apply(old(store.files), [op])) &&
              (!accepted ==> r == Fail(TransportError(op.key)) &&
                             store.log == old(store.log) && store.files == old(store.files))
    {
      var name := PartName(BaseName(), partNumber);
      r := store.PutFile(Str(name), Bytes(FileSlice(partNumber)), PublicOptions, accepted);
    }

    /** Marks the document as partitioned and writes it, as serialized, under its id. */
    method UploadDocument(store: Storage.Store, accepted: bool) returns (r: Outcome)
      requires Valid()
      modifies store, document
      ensures document.fields == Marked(old(document.fields), numParts, partSize)
      ensures var op := Put(Get(document.fields, Id), Json(Records.AttributesOf(document.kind, document.fields)), PublicOptions);
              (accepted ==> r == Pass && store.log == old(store.log) + [op] &&
                            store.files == Apply(old(store.files), [op])) &&
              (!accepted ==> r == Fail(TransportError(op.key)) &&
                             store.log == old(store.log) && store.files == old(store.files))
    {
      document.fields := Marked(document.fields, numParts, partSize);
      var contents := document.Attributes();
      r := store.PutFile(Get(document.fields, Id), Json(contents), PublicOptions, accepted);
    }

    /** The name the parts' keys start with: `String(url)`, so a string url
        as it is, and `"undefined"` for a document without one. */
    function BaseName(): (name: string)
      reads document
      ensures Get(document.fields, Url).Str? ==> name == Get(document.fields, Url).s
      ensures Get(document.fields, Url) == Undefined ==> name == "undefined"
    {
      Text(Get(document.fields, Url))
    }

    /** The part loop: the parts finish in the order `order`, and the backend
        rejects the parts in `failing`. Returns the number of parts stored
        before the first rejection, and that rejection's error. */
    method UploadParts(store: Storage.Store, order: seq<nat>, failing: set<nat>) returns (k: nat, r: Outcome)
      requires Valid()
      modifies store, progress
      ensures k == FirstFailure(order, failing)
      ensures store.log == old(store.log) + PartOps(BaseName(), file, partSize, order[..k])
      ensures store.files == Apply(old(store.files), PartOps(BaseName(), file, partSize, order[..k]))
      ensures progress.completed == old(progress.completed) + SumLengths(file, partSize, order[..k])
      ensures k < |order| ==> r == Fail(TransportError(Str(PartName(BaseName(), order[k]))))
      ensures k == |order| ==> r == Pass
    {
      ghost var url := BaseName();
      ghost var log0, files0, completed0 := store.log, store.files, progress.completed;
      ghost var first := FirstFailure(order, failing);
      k := 0;
      while k < |order|
        invariant 0 <= k <= |order|
        invariant k <= first
        invariant store.log == log0 + PartOps(url, file, partSize, order[..k])
        invariant store.files == Apply(files0, PartOps(url, file, partSize, order[..k]))
        invariant progress.completed == completed0 + SumLengths(file, partSize, order[..k])
      {
        var p := order[k];
        ghost var done := PartOps(url, file, partSize, order[..k]);
        ghost var op := PartOp(url, file, partSize, p);
        PartOpsStep(url, file, partSize, order, k);
        SumLengthsStep(file, partSize, order, k);
        ApplyConcat(files0, done, [op]);
        r := UploadPart(store, p, p !in failing);
        if r.Fail? {
          assert order[k] in failing;
          return;
        }
        assert k != first;
        progress.Add(|FileSlice(p)|);
        k := k + 1;
      }
      r := Pass;
    }

    /** Uploads every part, then the manifest; see UploadParts for `order` and
        `failing`. The manifest is rejected unless `manifestAccepted`. The
        first rejection ends the upload with its error; when everything is
        stored the document itself is returned. */
    method Upload(store: Storage.Store, order: seq<nat>, failing: set<nat>, manifestAccepted: bool)
      returns (r: Result<Records.Record>)
      requires Valid()
      requires multiset(order) == multiset(Range(numParts))
      modifies store, progress, document
      ensures var k := FirstFailure(order, failing);
              var parts := PartOps(old(BaseName()), file, partSize, order[..k]);
              var marked := Marked(old(document.fields), numParts, partSize);
              store.log == old(store.log) + parts + ManifestWrite(k == |order| && manifestAccepted, document.kind, marked)
      ensures var k := FirstFailure(order, failing);
              var parts := PartOps(old(BaseName()), file, partSize, order[..k]);
              var marked := Marked(old(document.fields), numParts, partSize);
              store.files == Apply(old(store.files), parts + ManifestWrite(k == |order| && manifestAccepted, document.kind, marked))
      ensures progress.completed == old(progress.completed) +
                SumLengths(file, partSize, order[..FirstFailure(order, failing)])
      ensures document.fields == if FirstFailure(order, failing) == |order|
                                 then Marked(old(document.fields), numParts, partSize) else old(document.fields)
      ensures var k := FirstFailure(order, failing);
              k < |order| ==> r == Err(TransportError(Str(PartName(old(BaseName()), order[k]))))
      ensures FirstFailure(order, failing) == |order| && !manifestAccepted ==>
                r == Err(TransportError(Get(old(document.fields), Id)))
      ensures FirstFailure(order, failing) == |order| && manifestAccepted ==> r == Ok(document)
    {
      var k, parts := UploadParts(store, order, failing);
      ghost var partOps := PartOps(BaseName(), file, partSize, order[..k]);
      if parts.Fail? {
        assert partOps + [] == partOps;
        return Err(parts.error);
      }
      ghost var marked := Marked(document.fields, numParts, partSize);
      ghost var mid := store.files;
      var published := UploadDocument(store, manifestAccepted);
      ghost var manifest := ManifestWrite(manifestAccepted, document.kind, marked);
      if published.Fail? {
        assert partOps + manifest == partOps;
        return Err(published.error);
      }
      ApplyConcat(old(store.files), partOps, manifest);
      assert store.files == Apply(mid, manifest);
      r := Ok(document);
    }
  }

  /** The manifest write, when it happens: one public write of the document's
      JSON projection under its id. */
  function ManifestWrite(happens: bool, kind: Records.Kind, fields: Bag): (ops: seq<Op>)
    ensures happens <==> |ops| == 1
    ensures !happens ==> ops == []
    ensures happens ==> ops[0].Put? && ops[0].key == Get(fields, Id) && ops[0].options == PublicOptions &&
                        ops[0].blob == Json(Records.AttributesOf(kind, fields))
  {
    if happens then [Put(Get(fields, Id), Json(Records.AttributesOf(kind, fields)), PublicOptions)] else []
  }

  /** The first rejected part is the first one in `failing`. */
  lemma {:induction false} FirstFailureAt(order: seq<nat>, failing: set<nat>, i: nat)
    requires i <= |order|
    requires forall j :: 0 <= j < i ==> order[j] !in failing
    requires i < |order| ==> order[i] in failing
    ensures FirstFailure(order, failing) == i
  {
    if i > 0 {
      FirstFailureAt(order[1..], failing, i - 1);
    }
  }
}

/** What a partitioned upload leaves behind: every part stored under its own
    name, the parts joined giving back the file, the byte count reaching the
    file's size, and a manifest that describes the parts. */
module UploadProperties {
  import opened Values
  import opened Storage
  import opened Partitions
  import opened PartitionedUpload
  import GaiaDocument
  import Records

  /** Distinct parts are written under distinct names, so each part's write
      is the last word on its key. */
  lemma {:induction false} StoredParts(files: map<Value, Blob>, url: string, file: seq<bv8>, partSize: nat, order: seq<nat>)
    requires forall i, j :: 0 <= i < j < |order| ==> order[i] != order[j]
    ensures forall i :: 0 <= i < |order| ==>
      var key := Str(PartName(url, order[i]));
      key in Apply(files, PartOps(url, file, partSize, order)) &&
      Apply(files, PartOps(url, file, partSize, order))[key] == Bytes(Slice(file, partSize, order[i]))
    decreases |order|
  {
    if order != [] {
      var n := |order| - 1;
      var init := order[..n];
      StoredParts(files, url, file, partSize, init);
      var after := Apply(files, PartOps(url, file, partSize, order));
      assert PartOps(url, file, partSize, order)[..n] == PartOps(url, file, partSize, init);
      forall i | 0 <= i < n
        ensures Str(PartName(url, order[i])) in after
        ensures after[Str(PartName(url, order[i]))] == Bytes(Slice(file, partSize, order[i]))
      {
        assert init[i] == order[i];
        if PartName(url, order[i]) == PartName(url, order[n]) {
          PartNamesDistinct(url, order[i], order[n]);
        }
      }
    }
  }

  /** After every part of a file has been written, whatever the order, each
      part `p` is stored under `url + ".part" + p`. */
  lemma EveryPartStored(files: map<Value, Blob>, url: string, file: seq<bv8>, partSize: nat, order: seq<nat>, n: nat)
    requires multiset(order) == multiset(Range(n))
    ensures forall p :: 0 <= p < n ==>
      var after := Apply(files, PartOps(url, file, partSize, order));
      Str(PartName(url, p)) in after && after[Str(PartName(url, p))] == Bytes(Slice(file, partSize, p))
  {
    forall i, j | 0 <= i < j < |order|
      ensures order[i] != order[j]
    {
      PermutationIsDistinct(order, n, i, j);
    }
    StoredParts(files, url, file, partSize, order);
    forall p | 0 <= p < n
      ensures var after := Apply(files, PartOps(url, file, partSize, order));
              Str(PartName(url, p)) in after && after[Str(PartName(url, p))] == Bytes(Slice(file, partSize, p))
    {
      var i := PositionOf(order, n, p);
    }
  }

  /** Where part `p` comes in a permutation of the part numbers. */
  lemma PositionOf(order: seq<nat>, n: nat, p: nat) returns (i: nat)
    requires multiset(order) == multiset(Range(n))
    requires p < n
    ensures i < |order| && order[i] == p
  {
    RangeIndex(n, p);
    assert p in multiset(order);
    i :| 0 <= i < |order| && order[i] == p;
  }

  /** Reading parts `0 .. k - 1` back from the backend and joining them
      (None when a part is missing or is not bytes). */
  function ReadBack(files: map<Value, Blob>, url: string, k: nat): (joined: Option<seq<bv8>>) {
    if k == 0 then Some([])
    else
      var key := Str(PartName(url, k - 1));
      match ReadBack(files, url, k - 1)
      case None => None
      case Some(prefix) =>
        if key in files && files[key].Bytes? then Some(prefix + files[key].data) else None
  }

  lemma {:induction false} ReadBackJoins(files: map<Value, Blob>, url: string, file: seq<bv8>, partSize: nat, k: nat)
    requires forall p :: 0 <= p < k ==>
      Str(PartName(url, p)) in files && files[Str(PartName(url, p))] == Bytes(Slice(file, partSize, p))
    ensures ReadBack(files, url, k) == Some(Joined(file, partSize, k))
  {
    if k > 0 {
      ReadBackJoins(files, url, file, partSize, k - 1);
    }
  }

  /** A finished upload can be read back: the stored parts, joined in part
      order, are the file. */
  lemma UploadedFileReadsBack(files: map<Value, Blob>, url: string, file: seq<bv8>, partSize: nat, order: seq<nat>)
    requires partSize > 0
    requires multiset(order) == multiset(Range(NumPartsFor(|file|, partSize)))
    ensures ReadBack(Apply(files, PartOps(url, file, partSize, order)), url, NumPartsFor(|file|, partSize)) == Some(file)
  {
    var n := NumPartsFor(|file|, partSize);
    EveryPartStored(files, url, file, partSize, order, n);
    ReadBackJoins(Apply(files, PartOps(url, file, partSize, order)), url, file, partSize, n);
    PartsCoverFile(file, partSize);
  }

  /** The manifest is written only once every part is (Upload's contract),
      and every part is among those writes: each part's write comes before
      the manifest in the log. */
  lemma ManifestFollowsEveryPart(url: string, file: seq<bv8>, partSize: nat, order: seq<nat>, n: nat, p: nat)
    requires multiset(order) == multiset(Range(n))
    requires p < n
    ensures PartOp(url, file, partSize, p) in PartOps(url, file, partSize, order)
  {
    var i := PositionOf(order, n, p);
    PartOpsAt(url, file, partSize, order, i);
  }

  lemma {:induction false} PartOpsAt(url: string, file: seq<bv8>, partSize: nat, ps: seq<nat>, i: nat)
    requires i < |ps|
    ensures PartOps(url, file, partSize, ps)[i] == PartOp(url, file, partSize, ps[i])
    decreases |ps|
  {
    if i < |ps| - 1 {
      PartOpsAt(url, file, partSize, ps[..|ps| - 1], i);
    }
  }

  /** Progress counts at most the whole file at every point of the upload,
      and exactly the whole file once every part is stored. */
  lemma ProgressWithinSize(file: seq<bv8>, partSize: nat, order: seq<nat>, k: nat)
    requires partSize > 0
    requires multiset(order) == multiset(Range(NumPartsFor(|file|, partSize)))
    requires k <= |order|
    ensures SumLengths(file, partSize, order[..k]) <= |file|
    ensures k == |order| ==> SumLengths(file, partSize, order[..k]) == |file|
  {
    AllPartsSumToSize(file, partSize, order);
    PrefixSumBounded(file, partSize, order, k);
    assert order[..|order|] == order;
  }

  /** A file no larger than one part is uploaded as a single part. */
  lemma SmallFileIsOnePart(size: nat, partSize: nat)
    requires 0 < size <= partSize
    ensures NumPartsFor(size, partSize) == 1
  {
    var n := NumPartsFor(size, partSize);
    if n >= 2 {
      MultiplyMonotone(1, n - 1, partSize);
    }
  }

  /** Marking sets the three transport properties and changes no other. */
  lemma MarkedFrame(fields: Bag, numParts: nat, partSize: nat)
    ensures Get(Marked(fields, numParts, partSize), StorageType) == Str(PartitionedStorage)
    ensures Get(Marked(fields, numParts, partSize), NumPartsCamel) == Num(numParts)
    ensures Get(Marked(fields, numParts, partSize), PartSize) == Num(partSize)
    ensures forall k :: k != StorageType && k != NumPartsCamel && k != PartSize ==>
      Get(Marked(fields, numParts, partSize), k) == Get(fields, k)
  {
  }

  /** The manifest of a document says it is partitioned, how many parts it
      has and how large they are. */
  lemma ManifestDescribesParts(fields: Bag, numParts: nat, partSize: nat)
    ensures var manifest := Records.AttributesOf(Records.Document, Marked(fields, numParts, partSize));
            Get(manifest, StorageType) == Str(PartitionedStorage) &&
            Get(manifest, NumPartsCamel) == Num(numParts) &&
            Get(manifest, PartSize) == Num(partSize)
  {
    var marked := Marked(fields, numParts, partSize);
    assert Records.AttributesOf(Records.Document, marked) == GaiaDocument.Serialize(marked);
    MarkedFrame(fields, numParts, partSize);
    GaiaDocument.SerializeKeepsPlainFields(marked);
  }

  /** The manifest carries every other plain property of the document (its
      url, size and version among them) as it was. */
  lemma ManifestKeepsFields(fields: Bag, numParts: nat, partSize: nat)
    ensures forall k :: GaiaDocument.IsPlain(k) && k != StorageType && k != NumPartsCamel && k != PartSize ==>
      Get(Records.AttributesOf(Records.Document, Marked(fields, numParts, partSize)), k) == Get(fields, k)
  {
    var marked := Marked(fields, numParts, partSize);
    assert Records.AttributesOf(Records.Document, marked) == GaiaDocument.Serialize(marked);
    MarkedFrame(fields, numParts, partSize);
    GaiaDocument.SerializeKeepsPlainFields(marked);
  }
}
