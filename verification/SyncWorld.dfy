/** Any number of brain-sync machines over one store: the compare-and-swap protocol.
 *
 *  The world interleaves single calls of the machines of SyncProtocol with local edits,
 *  crashes and late deletions.  The conditional put is atomic; keys and etags are fresh.
 *  The log of landed manifests is a history variable: no step reads it.
 */
module SyncWorld {
  import opened Prelude
  import opened SyncProtocol

  // ---------- State ----------

  // `start` is the length of the log when the machine's current operation began.
  datatype Machine = Machine(phase: Phase, brain: Brain, lastSeen: nat, start: nat)

  datatype Entry = Entry(manifest: Manifest, etag: Etag, text: string, author: nat)

  datatype World = World(
    objects: map<ObjectKey, Blob>,
    register: Option<(Blob, Etag)>,   // the manifest and its etag
    doomed: set<ObjectKey>,           // deletions issued; each may land at any later time, or never
    machines: seq<Machine>,
    keys: set<ObjectKey>,             // object keys ever drawn
    etags: set<Etag>,                 // manifest etags ever given out
    log: seq<Entry>)

  ghost predicate Initial(w: World) {
    && w.objects == map[] && w.register == None && w.doomed == {} && w.keys == {} && w.etags == {} && w.log == []
    && forall i :: 0 <= i < |w.machines| ==>
         w.machines[i].phase == Finished(NotRun) && w.machines[i].lastSeen == 0 && w.machines[i].start == 0
  }

  // ---------- Steps ----------

  datatype Action =
    | StartOp(i: nat, op: Op)
    | Call(i: nat, reply: Reply, etag: Etag, took: bool)  // took: the effect happened, whatever the answer says
    | Crash(i: nat)
    | Edit(i: nat, brain: Brain)
    | LateDelete(key: ObjectKey)

  function SetMachine(w: World, i: nat, m: Machine): World
    requires i < |w.machines|
  {
    w.(machines := w.machines[i := m])
  }

  predicate ConditionHolds(condition: Option<Etag>, register: Option<(Blob, Etag)>) {
    match condition
    case None => register.None?
    case Some(etag) => register.Some? && register.value.1 == etag
  }

  // The call of machine i can be answered with this reply, with or without its effect taking place.
  ghost predicate Possible(env: Env, w: World, i: nat, reply: Reply, etag: Etag, took: bool)
    requires i < |w.machines|
  {
    match RequestOf(env, w.machines[i].phase)
    case GetManifest => !took && (reply == ManifestIs(w.register) || reply == Broken)
    case GetObject(k) =>
      !took && (reply == ObjectIs(if k in w.objects then Some(w.objects[k]) else None) || reply == Broken)
    case ImportBundle(_) => reply == (if took then Done else Broken)
    case PersistLastSeen(_) => reply == Done || (!took && reply == Broken)
    case ExportBundle =>
      if took then
        reply.Exported? && reply.text == env.exportBundle(w.machines[i].brain) && reply.key !in w.keys
      else reply == Broken
    case PutBlob(_, _) => reply == Broken || (took && reply == Done)
    case PutManifestIf(_, condition) =>
      if took then ConditionHolds(condition, w.register) && etag !in w.etags && (reply == Done || reply == Broken)
      else reply == Broken || (reply == PreconditionFailed && !ConditionHolds(condition, w.register))
    case DeleteBlob(_) => reply == Broken || (took && reply == Done)
    case Nothing => false
  }

  function Effect(env: Env, w: World, i: nat, reply: Reply, etag: Etag): World
    requires i < |w.machines|
  {
    var m := w.machines[i];
    match RequestOf(env, m.phase)
    case ImportBundle(text) => SetMachine(w, i, m.(brain := env.importBundle(m.brain, text)))
    case PersistLastSeen(g) => SetMachine(w, i, m.(lastSeen := g))
    case ExportBundle => if reply.Exported? then w.(keys := w.keys + {reply.key}) else w
    case PutBlob(k, blob) => w.(objects := w.objects[k := blob])
    case PutManifestIf(blob, _) =>
      w.(register := Some((blob, etag)), etags := w.etags + {etag}, log := w.log + [NewEntry(env, m.phase, etag, i)])
    case DeleteBlob(k) => w.(doomed := w.doomed + {k})
    case _ => w
  }

  function NewEntry(env: Env, phase: Phase, etag: Etag, author: nat): Entry
    requires phase.PutManifest?
  {
    Entry(NewManifest(env, phase.base, phase.text, phase.key), etag, phase.text, author)
  }

  function Answered(env: Env, w: World, i: nat, reply: Reply, etag: Etag, took: bool): World
    requires i < |w.machines|
  {
    var v := if took then Effect(env, w, i, reply, etag) else w;
    var m := v.machines[i];
    SetMachine(v, i, m.(phase := Resume(env, m.lastSeen, m.phase, reply)))
  }

  ghost predicate Enabled(env: Env, w: World, a: Action) {
    match a
    case StartOp(i, _) => i < |w.machines| && w.machines[i].phase.Finished?
    case Call(i, reply, etag, took) => i < |w.machines| && Possible(env, w, i, reply, etag, took)
    case Crash(i) => i < |w.machines|
    case Edit(i, brain) =>
      // people add to their brain; whatever it covered it still covers
      i < |w.machines| &&
      forall t: string :: env.covers(env.exportBundle(w.machines[i].brain), t) ==> env.covers(env.exportBundle(brain), t)
    case LateDelete(k) => k in w.doomed
  }

  ghost function Next(env: Env, w: World, a: Action): World
    requires Enabled(env, w, a)
  {
    match a
    case StartOp(i, op) => SetMachine(w, i, w.machines[i].(phase := SyncProtocol.Begin(op), start := |w.log|))
    case Call(i, reply, etag, took) => Answered(env, w, i, reply, etag, took)
    case Crash(i) => SetMachine(w, i, w.machines[i].(phase := Finished(Failed(TransportError))))
    case Edit(i, brain) => SetMachine(w, i, w.machines[i].(brain := brain))
    case LateDelete(k) => w.(objects := w.objects - {k})
  }

  ghost predicate CanRun(env: Env, w: World, run: seq<Action>)
    decreases |run|
  {
    run != [] ==> Enabled(env, w, run[0]) && CanRun(env, Next(env, w, run[0]), run[1..])
  }

  ghost function After(env: Env, w: World, run: seq<Action>): World
    requires CanRun(env, w, run)
    decreases |run|
  {
    if run == [] then w else After(env, Next(env, w, run[0]), run[1..])
  }

  // ---------- The invariant ----------

  ghost predicate LogInv(env: Env, w: World) {
    var log := w.log;
    && (forall n :: 0 <= n < |log| ==>
          && log[n].manifest.generation == n + 1
          && log[n].manifest.brainHash == env.hash(log[n].text)
          && log[n].manifest.objectKey in w.keys
          && log[n].etag in w.etags)
    && (forall n, k :: 0 <= n < k < |log| ==>
          && log[n].manifest.objectKey != log[k].manifest.objectKey
          && log[n].etag != log[k].etag
          && env.covers(log[k].text, log[n].text))
  }

  function Last(w: World): Entry
    requires w.log != []
  {
    w.log[|w.log| - 1]
  }

  ghost predicate StoreInv(env: Env, w: World) {
    && (w.log == [] ==> w.register == None)
    && (w.log != [] ==>
          && w.register == Some((SealManifest(env, Last(w).manifest), Last(w).etag))
          && Last(w).manifest.objectKey in w.objects
          && Last(w).manifest.objectKey !in w.doomed)
    && (forall n :: 0 <= n < |w.log| && w.log[n].manifest.objectKey in w.objects ==>
          w.objects[w.log[n].manifest.objectKey] == SealObject(env, w.log[n].manifest.objectKey, w.log[n].text))
  }

  // The object key a machine has drawn and may still publish or discard.
  function Held(phase: Phase): set<ObjectKey> {
    match phase
    case PutObject(_, _, _, key) => {key}
    case PutManifest(_, _, _, key) => {key}
    case Discard(_, key) => {key}
    case _ => {}
  }

  ghost predicate KeysInv(env: Env, w: World) {
    && w.doomed <= w.keys
    && (forall i :: 0 <= i < |w.machines| ==> HeldOk(env, w, w.machines[i].phase))
    && (forall i, j :: 0 <= i < j < |w.machines| ==> Held(w.machines[i].phase) !! Held(w.machines[j].phase))
  }

  ghost predicate HeldOk(env: Env, w: World, phase: Phase) {
    && Held(phase) <= w.keys
    && Held(phase) !! w.doomed
    && (forall n :: 0 <= n < |w.log| ==> w.log[n].manifest.objectKey !in Held(phase))
    && (phase.PutManifest? ==>
          phase.key in w.objects && w.objects[phase.key] == SealObject(env, phase.key, phase.text))
  }

  // The brain exports everything bundle g holds.
  ghost predicate Covers(env: Env, log: seq<Entry>, brain: Brain, g: nat) {
    g <= |log| && (g > 0 ==> env.covers(env.exportBundle(brain), log[g - 1].text))
  }

  ghost predicate Known(log: seq<Entry>, remote: Remote) {
    var g := remote.manifest.generation;
    1 <= g <= |log| && log[g - 1].manifest == remote.manifest && log[g - 1].etag == remote.etag
  }

  ghost predicate BaseKnown(log: seq<Entry>, base: Option<Remote>) {
    base.Some? ==> Known(log, base.value)
  }

  // Attempt number n of an operation starts no earlier than n - 1 landed writes after its begin.
  ghost predicate CtxOk(ctx: Ctx, start: nat, g: int) {
    1 <= ctx.attempt <= MAX_CAS_ATTEMPTS && start + ctx.attempt - 1 <= g
  }

  ghost predicate PhaseOk(env: Env, log: seq<Entry>, m: Machine) {
    match m.phase
    case ReadManifest(ctx) => CtxOk(ctx, m.start, |log|)
    case FetchObject(ctx, r) => Ahead(log, m, ctx, r)
    case Import(ctx, r, text) => Ahead(log, m, ctx, r) && text == log[r.manifest.generation - 1].text
    case PersistMerged(ctx, r) =>
      && Known(log, r) && CtxOk(ctx, m.start, r.manifest.generation)
      && Covers(env, log, m.brain, r.manifest.generation)
    case Export(ctx, base) =>
      BaseKnown(log, base) && CtxOk(ctx, m.start, GenerationOf(base)) && Covers(env, log, m.brain, GenerationOf(base))
    case PutObject(ctx, base, text, _) => Publishing(env, log, m, ctx, base, text)
    case PutManifest(ctx, base, text, _) => Publishing(env, log, m, ctx, base, text)
    case Discard(ctx, _) => CtxOk(ctx, m.start, |log| - 1)
    case PersistPushed(ctx, base, key) =>
      && BaseKnown(log, base) && GenerationOf(base) < |log|
      && Covers(env, log, m.brain, GenerationOf(base) + 1)
    case DeleteSuperseded(ctx, r) =>
      && Known(log, r) && r.manifest.generation < |log|
      && Covers(env, log, m.brain, r.manifest.generation + 1)
    case Finished(outcome) => OutcomeOk(env, log, m, outcome)
  }

  // A manifest this machine has not merged yet.
  ghost predicate Ahead(log: seq<Entry>, m: Machine, ctx: Ctx, r: Remote) {
    Known(log, r) && CtxOk(ctx, m.start, r.manifest.generation) && m.lastSeen < r.manifest.generation
  }

  ghost predicate Publishing(env: Env, log: seq<Entry>, m: Machine, ctx: Ctx, base: Option<Remote>, text: string) {
    && BaseKnown(log, base) && CtxOk(ctx, m.start, GenerationOf(base))
    && (base.Some? ==> env.covers(text, log[GenerationOf(base) - 1].text))
    && env.covers(env.exportBundle(m.brain), text)
  }

  // What an operation's outcome says about the machine.
  ghost predicate OutcomeOk(env: Env, log: seq<Entry>, m: Machine, outcome: Outcome) {
    match outcome
    case NotRun => true
    case Empty => true
    case UpToDate(g, _) => g > 0 && Covers(env, log, m.brain, g)
    case Merged(g) => g > 0 && Covers(env, log, m.brain, g)
    case Pushed(g, _) => g > 0 && Covers(env, log, m.brain, g)
    case Failed(e) =>
      && e in {ObjectMissing, SyncConflict, TransportError}
      && (e == SyncConflict ==> m.start + MAX_CAS_ATTEMPTS <= |log|)
  }

  // Nothing landed by this machine since its operation began.
  predicate StillUnwritten(phase: Phase) {
    match phase
    case PersistPushed(_, _, _) => false
    case DeleteSuperseded(_, _) => false
    case Finished(outcome) => outcome == Failed(SyncConflict)
    case _ => true
  }

  ghost predicate MachineInv(env: Env, log: seq<Entry>, i: nat, m: Machine) {
    && m.start <= |log|
    && Covers(env, log, m.brain, m.lastSeen)
    && PhaseOk(env, log, m)
    && (StillUnwritten(m.phase) ==> forall n :: m.start <= n < |log| ==> log[n].author != i)
  }

  ghost predicate Inv(env: Env, w: World) {
    && LogInv(env, w) && StoreInv(env, w) && KeysInv(env, w)
    && forall i :: 0 <= i < |w.machines| ==> MachineInv(env, w.log, i, w.machines[i])
  }

  lemma InitialInv(env: Env, w: World)
    requires Initial(w)
    ensures Inv(env, w)
  {
  }
}
