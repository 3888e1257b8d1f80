/** The local-file transport (brain-sync/src/transport.ts) as the conditional register that the
 *  protocol of SyncWorld takes for granted.
 */
module ConditionalStore {
  import opened Prelude

  datatype PutCondition = Unconditional | IfMatch(etag: string) | IfNoneMatch

  // An unsafe key and a failing read or delete are transport errors; a failing write, and a failing read of what an
  // etag is compared with, throw as they are.
  datatype TransportError = PreconditionFailed | TransportFailed | DiskFailed

  // What the disk does to one call.
  datatype Disk = Works | ReadsFail | WritesFail

  predicate Admits(files: map<string, string>, digest: string -> string, key: string, condition: PutCondition) {
    match condition
    case Unconditional => true
    case IfMatch(etag) => key in files && digest(files[key]) == etag
    case IfNoneMatch => key !in files
  }

  // The answer of a put, and with it whether it writes.
  function PutAnswer(files: map<string, string>, digest: string -> string, safe: bool, key: string, body: string,
                     condition: PutCondition, disk: Disk): Result<string, TransportError> {
    if !safe then Err(TransportFailed)
    else if condition.IfMatch? && key in files && disk == ReadsFail then Err(DiskFailed)
    else if !Admits(files, digest, key, condition) then Err(PreconditionFailed)
    else if disk == WritesFail then Err(DiskFailed)
    else Ok(digest(body))
  }

  class LocalTransport {
    var files: map<string, string>
    const digest: string -> string
    // No null byte, no traversal, inside the base directory.
    const isSafe: string -> bool

    constructor (digest: string -> string, isSafe: string -> bool)
      ensures files == map[] && this.digest == digest && this.isSafe == isSafe
    {
      files := map[];
      this.digest := digest;
      this.isSafe := isSafe;
    }

    method GetObject(key: string, disk: Disk) returns (found: Result<Option<(string, string)>, TransportError>)
      ensures found.Err? <==> !isSafe(key) || disk == ReadsFail
      ensures found.Err? ==> found.error == TransportFailed
      ensures found.Ok? ==> found.value == if key in files then Some((files[key], digest(files[key]))) else None
    {
      if !isSafe(key) || disk == ReadsFail {
        return Err(TransportFailed);
      }
      if key !in files {
        return Ok(None);
      }
      var body := files[key];
      return Ok(Some((body, digest(body))));
    }

    /** A put writes exactly when it is answered with an etag, and a condition that does not hold is told from a
        failure. */
    method PutObject(key: string, body: string, condition: PutCondition, disk: Disk)
      returns (r: Result<string, TransportError>)
      modifies this
      ensures r == PutAnswer(old(files), digest, isSafe(key), key, body, condition, disk)
      ensures files == if r.Ok? then old(files)[key := body] else old(files)
    {
      if !isSafe(key) {
        return Err(TransportFailed);
      }
      var etag := digest(body);
      match condition {
        case Unconditional =>
        case IfNoneMatch =>
          if key in files {
            return Err(PreconditionFailed);
          }
        case IfMatch(expected) =>
          if key !in files {
            return Err(PreconditionFailed);
          }
          if disk == ReadsFail {
            return Err(DiskFailed);
          }
          var existingEtag := digest(files[key]);
          if existingEtag != expected {
            return Err(PreconditionFailed);
          }
      }
      if disk == WritesFail {
        return Err(DiskFailed);
      }
      files := files[key := body];
      return Ok(etag);
    }

    method DeleteObject(key: string, disk: Disk) returns (r: Result<(), TransportError>)
      modifies this
      ensures r == if isSafe(key) && disk != WritesFail then Ok(()) else Err(TransportFailed)
      ensures files == if r.Ok? then old(files) - {key} else old(files)
    {
      if !isSafe(key) || disk == WritesFail {
        return Err(TransportFailed);
      }
      files := files - {key};
      return Ok(());
    }

    /** A put conditioned on what was read lands, unless the disk fails, exactly when the object still is what was
        read. */
    method ReadThenPut(key: string, body: string, meanwhile: map<string, string>, disk: Disk) returns (landed: bool)
      requires CollisionFree(digest) && isSafe(key)
      modifies this
      ensures landed <==>
        && disk == Works
        && (key in old(files) <==> key in meanwhile) && (key in meanwhile ==> meanwhile[key] == old(files)[key])
      ensures files == if landed then meanwhile[key := body] else meanwhile
    {
      var found := GetObject(key, disk);
      files := meanwhile;  // whatever other machines did in between
      if found.Err? {
        return false;
      }
      var put := PutObject(key, body, if found.value.Some? then IfMatch(found.value.value.1) else IfNoneMatch, disk);
      return put.Ok?;
    }
  }

  /** Of two writers that read the same version, at most one lands: once the first has written
      different bytes, the other's condition fails, and goes on failing until the old bytes are back. */
  lemma AtMostOneWriterLands(files: map<string, string>, digest: string -> string, key: string, etag: string,
                             first: string, later: string)
    requires CollisionFree(digest) && Admits(files, digest, key, IfMatch(etag)) && first != files[key]
    ensures !Admits(files[key := first], digest, key, IfMatch(etag))
    ensures !Admits(files[key := first], digest, key, IfNoneMatch)
    ensures Admits(files[key := first][key := later], digest, key, IfMatch(etag)) <==> later == files[key]
  {
    assert files[key := first][key := later][key] == later;
  }
}
