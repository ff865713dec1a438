/** The storage backend as the core sees it: named objects that can be read,
    written and deleted, plus the log of the writes and deletes it received. */
module Storage {
  import opened Values

  /** An object's content: a JSON document (an attribute bag) or raw bytes. */
  datatype Blob = Json(content: Bag) | Bytes(data: seq<bv8>)

  /** The options of a write. */
  datatype PutOptions = PutOptions(encrypt: bool, verify: bool)

  /** `{ encrypt: false, verify: false }`, the options of every write in the core. */
  const PublicOptions := PutOptions(false, false)

  /** A change the backend received. */
  datatype Op = Put(key: Value, blob: Blob, options: PutOptions) | Remove(key: Value)

  /** The objects after the given changes, applied one after the other. */
  function Apply(files: map<Value, Blob>, ops: seq<Op>): (result: map<Value, Blob>)
    decreases |ops|
  {
    if ops == [] then files
    else
      var last := ops[|ops| - 1];
      var before := Apply(files, ops[..|ops| - 1]);
      match last
      case Put(k, b, _) => before[k := b]
      case Remove(k) => before - {k}
  }

  lemma {:induction false} ApplyConcat(files: map<Value, Blob>, a: seq<Op>, b: seq<Op>)
    ensures Apply(files, a + b) == Apply(Apply(files, a), b)
    decreases |b|
  {
    if b == [] {
      assert a + b == a;
    } else {
      var n := |b| - 1;
      assert (a + b)[..|a + b| - 1] == a + b[..n];
      ApplyConcat(files, a, b[..n]);
    }
  }

  /** The backend. A call it rejects (`accepted == false`) changes nothing. */
  class Store {
    var files: map<Value, Blob>
    var log: seq<Op>

    constructor ()
      ensures files == map[] && log == []
    {
      files := map[];
      log := [];
    }

    method PutFile(key: Value, blob: Blob, options: PutOptions, accepted: bool) returns (r: Outcome)
      modifies this
      ensures r == if accepted then Pass else Fail(TransportError(key))
      ensures accepted ==> log == old(log) + [Put(key, blob, options)]
      ensures accepted ==> files == Apply(old(files), [Put(key, blob, options)])
      ensures !accepted ==> log == old(log) && files == old(files)
    {
      if accepted {
        files := files[key := blob];
        log := log + [Put(key, blob, options)];
        r := Pass;
      } else {
        r := Fail(TransportError(key));
      }
    }

    method DeleteFile(key: Value, accepted: bool) returns (r: Outcome)
      modifies this
      ensures r == if accepted then Pass else Fail(TransportError(key))
      ensures accepted ==> log == old(log) + [Remove(key)]
      ensures accepted ==> files == Apply(old(files), [Remove(key)])
      ensures !accepted ==> log == old(log) && files == old(files)
    {
      if accepted {
        files := files - {key};
        log := log + [Remove(key)];
        r := Pass;
      } else {
        r := Fail(TransportError(key));
      }
    }

    /** Reading an object: the content stored under `key`, or NotFound. */
    method GetFile(key: Value) returns (r: Result<Blob>)
      ensures key in files ==> r == Ok(files[key])
      ensures key !in files ==> r == Err(NotFound(key))
    {
      if key in files {
        r := Ok(files[key]);
      } else {
        r := Err(NotFound(key));
      }
    }
  }
}
