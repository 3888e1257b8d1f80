/** One brain-sync machine as an automaton (brain-sync/src/sync.ts).
 *
 *  `push` and `pull` are cut at every call they make: a phase names the call the machine is
 *  about to make, RequestOf gives that call, and Resume says where the machine goes when the
 *  call is answered.  SyncWorld composes many such machines over one store; SyncClient runs
 *  the loop of the source against scripted answers and is proved to follow this automaton.
 */
module SyncProtocol {
  import opened Prelude

  type ObjectKey = nat
  type Etag = nat
  type Brain(!new)

  datatype Manifest = Manifest(generation: nat, brainHash: string, objectKey: ObjectKey)

  // ---------- Sealing ----------

  // Associated data binds a blob to the role it was sealed for.
  datatype Aad = ForManifest(brainId: nat) | ForObject(brainId: nat, objectKey: ObjectKey)

  // Authenticated encryption, abstractly: a blob opens under exactly the key and data it was sealed with.
  datatype Blob = Sealed(key: nat, aad: Aad, text: string)

  function Decrypt(blob: Blob, key: nat, aad: Aad): Option<string> {
    if blob.key == key && blob.aad == aad then Some(blob.text) else None
  }

  // What a machine is configured with and what is injected into it.
  datatype Env = Env(
    key: nat,
    brainId: nat,
    exportBundle: Brain -> string,
    importBundle: (Brain, string) -> Brain,
    covers: (string, string) -> bool,
    hash: string -> string,
    render: Manifest -> string,
    parse: string -> Option<Manifest>)

  /** What the injected functions owe: exporting after an import covers the import, coverage is
      a preorder, hashing is injective, and a rendered manifest parses back. */
  ghost predicate Lawful(env: Env) {
    && (forall b: Brain, t: string :: env.covers(env.exportBundle(env.importBundle(b, t)), t))
    && (forall t: string :: env.covers(t, t))
    && (forall t: string, u: string, v: string :: env.covers(t, u) && env.covers(u, v) ==> env.covers(t, v))
    && (forall t: string, u: string :: env.hash(t) == env.hash(u) ==> t == u)
    && (forall m: Manifest :: env.parse(env.render(m)) == Some(m))
  }

  function SealManifest(env: Env, m: Manifest): Blob {
    Sealed(env.key, ForManifest(env.brainId), env.render(m))
  }

  function SealObject(env: Env, k: ObjectKey, text: string): Blob {
    Sealed(env.key, ForObject(env.brainId, k), text)
  }

  datatype SyncError =
    | WrongKey | ManifestInvalid | RollbackDetected | ObjectMissing
    | DecryptFailed | HashMismatch | SyncConflict | TransportError

  function OpenManifest(env: Env, blob: Blob): Result<Manifest, SyncError> {
    match Decrypt(blob, env.key, ForManifest(env.brainId))
    case None => Err(WrongKey)
    case Some(text) =>
      match env.parse(text)
      case None => Err(ManifestInvalid)
      case Some(m) => Ok(m)
  }

  function OpenBundle(env: Env, m: Manifest, blob: Blob): Result<string, SyncError> {
    match Decrypt(blob, env.key, ForObject(env.brainId, m.objectKey))
    case None => Err(DecryptFailed)
    case Some(text) => if env.hash(text) == m.brainHash then Ok(text) else Err(HashMismatch)
  }

  // ---------- Phases ----------

  const MAX_CAS_ATTEMPTS := 3

  datatype Op = Pull | Push

  datatype Remote = Remote(manifest: Manifest, etag: Etag)

  // The loop state that survives from one attempt to the next; a pull is a single attempt.
  datatype Ctx = Ctx(op: Op, attempt: nat, merged: bool)

  datatype Outcome =
    | NotRun
    | Empty
    | UpToDate(generation: nat, merged: bool)
    | Merged(generation: nat)
    | Pushed(generation: nat, merged: bool)
    | Failed(error: SyncError)

  datatype Phase =
    | ReadManifest(ctx: Ctx)
    | FetchObject(ctx: Ctx, remote: Remote)
    | Import(ctx: Ctx, remote: Remote, text: string)
    | PersistMerged(ctx: Ctx, remote: Remote)
    | Export(ctx: Ctx, base: Option<Remote>)
    | PutObject(ctx: Ctx, base: Option<Remote>, text: string, key: ObjectKey)
    | PutManifest(ctx: Ctx, base: Option<Remote>, text: string, key: ObjectKey)
    | Discard(ctx: Ctx, key: ObjectKey)
    | PersistPushed(ctx: Ctx, base: Option<Remote>, key: ObjectKey)
    | DeleteSuperseded(ctx: Ctx, remote: Remote)
    | Finished(outcome: Outcome)

  function Begin(op: Op): Phase {
    ReadManifest(Ctx(op, 1, false))
  }

  function GenerationOf(base: Option<Remote>): nat {
    if base.Some? then base.value.manifest.generation else 0
  }

  function NewManifest(env: Env, base: Option<Remote>, text: string, key: ObjectKey): Manifest {
    Manifest(GenerationOf(base) + 1, env.hash(text), key)
  }

  // ---------- Calls and answers ----------

  datatype Request =
    | GetManifest
    | GetObject(key: ObjectKey)
    | ImportBundle(text: string)
    | PersistLastSeen(generation: nat)
    | ExportBundle
    | PutBlob(key: ObjectKey, blob: Blob)
    | PutManifestIf(blob: Blob, condition: Option<Etag>)  // None is If-None-Match: *
    | DeleteBlob(key: ObjectKey)
    | Nothing

  datatype Reply =
    | ManifestIs(found: Option<(Blob, Etag)>)
    | ObjectIs(blob: Option<Blob>)
    | Done
    | Exported(text: string, key: ObjectKey)  // the bundle, and the key drawn for it
    | PreconditionFailed
    | Broken                                  // the call threw anything else

  function RequestOf(env: Env, phase: Phase): Request {
    match phase
    case ReadManifest(_) => GetManifest
    case FetchObject(_, remote) => GetObject(remote.manifest.objectKey)
    case Import(_, _, text) => ImportBundle(text)
    case PersistMerged(_, remote) => PersistLastSeen(remote.manifest.generation)
    case Export(_, _) => ExportBundle
    case PutObject(_, _, text, key) => PutBlob(key, SealObject(env, key, text))
    case PutManifest(_, base, text, key) =>
      PutManifestIf(SealManifest(env, NewManifest(env, base, text, key)),
                    if base.Some? then Some(base.value.etag) else None)
    case Discard(_, key) => DeleteBlob(key)
    case PersistPushed(_, base, _) => PersistLastSeen(GenerationOf(base) + 1)
    case DeleteSuperseded(_, remote) => DeleteBlob(remote.manifest.objectKey)
    case Finished(_) => Nothing
  }

  function NextAttempt(ctx: Ctx): Phase {
    if ctx.attempt < MAX_CAS_ATTEMPTS then ReadManifest(ctx.(attempt := ctx.attempt + 1))
    else Finished(Failed(SyncConflict))
  }

  function AfterManifest(env: Env, lastSeen: nat, ctx: Ctx, blob: Blob, etag: Etag): Phase {
    match OpenManifest(env, blob)
    case Err(e) => Finished(Failed(e))
    case Ok(m) => StartMerge(lastSeen, ctx, Remote(m, etag))
  }

  // mergeRemote up to its first transport call.
  function StartMerge(lastSeen: nat, ctx: Ctx, remote: Remote): Phase {
    var g := remote.manifest.generation;
    if g < lastSeen then Finished(Failed(RollbackDetected))
    else if g == lastSeen then
      if ctx.op == Pull then Finished(UpToDate(g, false)) else Export(ctx, Some(remote))
    else FetchObject(ctx, remote)
  }

  function Resume(env: Env, lastSeen: nat, phase: Phase, reply: Reply): Phase {
    match (phase, reply)
    case (ReadManifest(ctx), ManifestIs(None)) =>
      if ctx.op == Pull then Finished(Empty)
      else if lastSeen > 0 then Finished(Failed(RollbackDetected))
      else Export(ctx, None)
    case (ReadManifest(ctx), ManifestIs(Some(found))) => AfterManifest(env, lastSeen, ctx, found.0, found.1)
    case (FetchObject(ctx, remote), ObjectIs(None)) =>
      if ctx.op == Pull then Finished(Failed(ObjectMissing)) else NextAttempt(ctx)
    case (FetchObject(ctx, remote), ObjectIs(Some(blob))) =>
      (match OpenBundle(env, remote.manifest, blob)
       case Err(e) => Finished(Failed(e))
       case Ok(text) => Import(ctx, remote, text))
    case (Import(ctx, remote, _), Done) => PersistMerged(ctx, remote)
    case (PersistMerged(ctx, remote), Done) =>
      if ctx.op == Pull then Finished(Merged(remote.manifest.generation))
      else Export(ctx.(merged := true), Some(remote))
    case (Export(ctx, base), Exported(text, key)) =>
      if base.Some? && base.value.manifest.brainHash == env.hash(text)
      then Finished(UpToDate(base.value.manifest.generation, ctx.merged))
      else PutObject(ctx, base, text, key)
    case (PutObject(ctx, base, text, key), Done) => PutManifest(ctx, base, text, key)
    case (PutManifest(ctx, base, _, key), Done) => PersistPushed(ctx, base, key)
    case (PutManifest(ctx, _, _, key), PreconditionFailed) => Discard(ctx, key)
    case (Discard(ctx, _), _) => NextAttempt(ctx)
    case (PersistPushed(ctx, base, key), Done) =>
      if base.Some? && base.value.manifest.objectKey != key then DeleteSuperseded(ctx, base.value)
      else Finished(Pushed(GenerationOf(base) + 1, ctx.merged))
    case (DeleteSuperseded(ctx, remote), _) => Finished(Pushed(remote.manifest.generation + 1, ctx.merged))
    case (Finished(outcome), _) => phase
    case _ => Finished(Failed(TransportError))
  }

  // Every answer brings the machine closer to the end of its operation.
  function Rank(phase: Phase): nat {
    match phase
    case Finished(_) => 0
    case DeleteSuperseded(_, _) => 1
    case PersistPushed(_, _, _) => 2
    case Discard(ctx, _) => 3 + Left(ctx)
    case PutManifest(ctx, _, _, _) => 4 + Left(ctx)
    case PutObject(ctx, _, _, _) => 5 + Left(ctx)
    case Export(ctx, _) => 6 + Left(ctx)
    case PersistMerged(ctx, _) => 7 + Left(ctx)
    case Import(ctx, _, _) => 8 + Left(ctx)
    case FetchObject(ctx, _) => 9 + Left(ctx)
    case ReadManifest(ctx) => 10 + Left(ctx)
  }

  function Left(ctx: Ctx): nat {
    if ctx.attempt < MAX_CAS_ATTEMPTS then 10 * (MAX_CAS_ATTEMPTS - ctx.attempt) else 0
  }

  /** No operation runs forever: every answered call lowers the rank, which starts at 30. */
  lemma ResumeMakesProgress(env: Env, lastSeen: nat, phase: Phase, reply: Reply)
    requires !phase.Finished?
    ensures Rank(Resume(env, lastSeen, phase, reply)) < Rank(phase)
  {
  }
}
