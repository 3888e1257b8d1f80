/** `pull` and `push` as the loops they are, run against a scripted outside world.
 *
 *  The script answers each call in turn and may answer anything: another machine's writes, an
 *  old manifest, a missing object, an error.  Both methods are proved to make exactly the calls
 *  of the automaton of SyncProtocol, so what SyncSafety proves of the automaton holds of them.
 */
module SyncClient {
  import opened Prelude
  import opened SyncProtocol

  // ---------- The machine's own state, as a value ----------

  // `imported` lists the generations merged so far; `unpersisted` is set once a last-seen write fails.
  datatype Local = Local(
    lastSeen: nat,
    script: seq<Reply>,
    calls: seq<Request>,
    imported: seq<nat>,
    unpersisted: bool)

  function NextReply(l: Local): Reply {
    if l.script == [] then Broken else l.script[0]
  }

  function Asked(l: Local, request: Request): Local {
    l.(script := if l.script == [] then [] else l.script[1..], calls := l.calls + [request])
  }

  function Persisted(l: Local, generation: nat): Local {
    var asked := Asked(l, PersistLastSeen(generation));
    if NextReply(l) == Done then asked.(lastSeen := generation) else asked.(unpersisted := true)
  }

  function Imported(l: Local, text: string, generation: nat): Local {
    var asked := Asked(l, ImportBundle(text));
    if NextReply(l) == Done then asked.(imported := l.imported + [generation]) else asked
  }

  // The state after the call a phase makes.
  function Make(env: Env, l: Local, phase: Phase): Local {
    match phase
    case Import(_, remote, text) => Imported(l, text, remote.manifest.generation)
    case PersistMerged(_, remote) => Persisted(l, remote.manifest.generation)
    case PersistPushed(_, base, _) => Persisted(l, GenerationOf(base) + 1)
    case _ => Asked(l, RequestOf(env, phase))
  }

  // Runs the automaton to the end of the operation.
  function Drive(env: Env, l: Local, phase: Phase): (Local, Outcome)
    decreases Rank(phase)
  {
    if phase.Finished? then (l, phase.outcome)
    else
      ResumeMakesProgress(env, l.lastSeen, phase, NextReply(l));
      Drive(env, Make(env, l, phase), Resume(env, l.lastSeen, phase, NextReply(l)))
  }

  // One turn of the automaton, for proofs that hide the rest.
  lemma Turn(env: Env, l: Local, phase: Phase)
    ensures phase.Finished? ==> Drive(env, l, phase) == (l, phase.outcome)
    ensures !phase.Finished? ==>
      Drive(env, l, phase) == Drive(env, Make(env, l, phase), Resume(env, l.lastSeen, phase, NextReply(l)))
  {
  }

  datatype MergeState = NothingNew | DidMerge

  // Where an operation goes on after mergeRemote has returned or thrown.
  function AfterMerge(ctx: Ctx, remote: Remote, r: Result<MergeState, SyncError>): Phase {
    match r
    case Ok(NothingNew) =>
      if ctx.op == Pull then Finished(UpToDate(remote.manifest.generation, false)) else Export(ctx, Some(remote))
    case Ok(DidMerge) =>
      if ctx.op == Pull then Finished(Merged(remote.manifest.generation))
      else Export(ctx.(merged := true), Some(remote))
    case Err(e) =>
      if ctx.op == Push && e == ObjectMissing then NextAttempt(ctx) else Finished(Failed(e))
  }

  class Client {
    var lastSeen: nat
    var script: seq<Reply>
    var calls: seq<Request>
    var imported: seq<nat>
    var unpersisted: bool

    function State(): Local
      reads this
    {
      Local(lastSeen, script, calls, imported, unpersisted)
    }

    constructor (lastSeen: nat, script: seq<Reply>)
      ensures State() == Local(lastSeen, script, [], [], false)
    {
      this.lastSeen, this.script := lastSeen, script;
      calls, imported, unpersisted := [], [], false;
    }

    method Ask(request: Request) returns (reply: Reply)
      modifies this
      ensures State() == Asked(old(State()), request) && reply == NextReply(old(State()))
    {
      calls := calls + [request];
      if script == [] {
        return Broken;
      }
      reply := script[0];
      script := script[1..];
    }

    method Persist(generation: nat) returns (ok: bool)
      modifies this
      ensures State() == Persisted(old(State()), generation)
      ensures ok <==> NextReply(old(State())) == Done
    {
      var reply := Ask(PersistLastSeen(generation));
      ok := reply == Done;
      if ok {
        lastSeen := generation;
      } else {
        unpersisted := true;
      }
    }

    method ImportText(text: string, generation: nat) returns (ok: bool)
      modifies this
      ensures State() == Imported(old(State()), text, generation)
      ensures ok <==> NextReply(old(State())) == Done
    {
      var reply := Ask(ImportBundle(text));
      ok := reply == Done;
      if ok {
        imported := imported + [generation];
      }
    }

    method ReadRemote(env: Env) returns (r: Result<Option<Remote>, SyncError>)
      modifies this
      ensures State() == Asked(old(State()), GetManifest)
      ensures match NextReply(old(State()))
        case ManifestIs(None) => r == Ok(None)
        case ManifestIs(Some(found)) =>
          r == (match OpenManifest(env, found.0)
                case Err(e) => Err(e)
                case Ok(m) => Ok(Some(Remote(m, found.1))))
        case _ => r == Err(TransportError)
    {
      var reply := Ask(GetManifest);
      match reply
      case ManifestIs(None) => return Ok(None);
      case ManifestIs(Some(found)) =>
        match OpenManifest(env, found.0) {
          case Err(e) => return Err(e);
          case Ok(m) => return Ok(Some(Remote(m, found.1)));
        }
      case _ => return Err(TransportError);
    }

    /** mergeRemote takes the automaton from the opened manifest to the point after the merge. */
    method MergeRemote(env: Env, remote: Remote, ghost ctx: Ctx) returns (r: Result<MergeState, SyncError>)
      modifies this
      ensures Drive(env, old(State()), StartMerge(old(lastSeen), ctx, remote))
        == Drive(env, State(), AfterMerge(ctx, remote, r))
    {
      hide Drive;
      var manifest := remote.manifest;
      if manifest.generation < lastSeen {
        return Err(RollbackDetected);
      }
      if manifest.generation == lastSeen {
        return Ok(NothingNew);
      }
      Turn(env, State(), FetchObject(ctx, remote));
      var reply := Ask(GetObject(manifest.objectKey));
      if !reply.ObjectIs? {
        return Err(TransportError);
      }
      if reply.blob == None {
        return Err(ObjectMissing);
      }
      var bundle := OpenBundle(env, manifest, reply.blob.value);
      if bundle.Err? {
        return Err(bundle.error);
      }
      Turn(env, State(), Import(ctx, remote, bundle.value));
      var ok := ImportText(bundle.value, manifest.generation);
      if !ok {
        return Err(TransportError);
      }
      Turn(env, State(), PersistMerged(ctx, remote));
      ok := Persist(manifest.generation);
      if !ok {
        return Err(TransportError);
      }
      return Ok(DidMerge);
    }

    method PullOnce(env: Env) returns (outcome: Outcome)
      modifies this
      ensures (State(), outcome) == Drive(env, old(State()), SyncProtocol.Begin(Pull))
    {
      hide Drive;
      var ctx := Ctx(Pull, 1, false);
      Turn(env, State(), ReadManifest(ctx));
      var read := ReadRemote(env);
      if read.Err? {
        outcome := Failed(read.error);
      } else if read.value == None {
        outcome := Empty;
      } else {
        var remote := read.value.value;
        var merge := MergeRemote(env, remote, ctx);
        outcome :=
          if merge.Err? then Failed(merge.error)
          else if merge.value == DidMerge then Merged(remote.manifest.generation)
          else UpToDate(remote.manifest.generation, false);
      }
      Turn(env, State(), Finished(outcome));
    }

    /** The conditional put and what follows it.  None means the put was refused and the loop goes on. */
    method Land(env: Env, base: Option<Remote>, text: string, key: ObjectKey, ghost ctx: Ctx, merged: bool)
      returns (r: Option<Outcome>)
      requires ctx.op == Push && ctx.merged == merged
      modifies this
      ensures r == None ==>
        Drive(env, old(State()), PutManifest(ctx, base, text, key)) == Drive(env, State(), NextAttempt(ctx))
      ensures r.Some? ==> Drive(env, old(State()), PutManifest(ctx, base, text, key)) == (State(), r.value)
    {
      hide Drive;
      var manifest := NewManifest(env, base, text, key);
      Turn(env, State(), PutManifest(ctx, base, text, key));
      var reply := Ask(PutManifestIf(SealManifest(env, manifest), if base.Some? then Some(base.value.etag) else None));
      if reply == PreconditionFailed {
        Turn(env, State(), Discard(ctx, key));
        reply := Ask(DeleteBlob(key));
        return None;
      }
      if reply == Done {
        Turn(env, State(), PersistPushed(ctx, base, key));
        var ok := Persist(manifest.generation);
        if ok {
          if base.Some? && base.value.manifest.objectKey != key {
            Turn(env, State(), DeleteSuperseded(ctx, base.value));
            reply := Ask(DeleteBlob(base.value.manifest.objectKey));
          }
          Turn(env, State(), Finished(Pushed(manifest.generation, merged)));
          return Some(Pushed(manifest.generation, merged));
        }
      }
      Turn(env, State(), Finished(Failed(TransportError)));
      return Some(Failed(TransportError));
    }

    /** Exports and publishes one bundle; None means the conditional put was refused. */
    method Publish(env: Env, base: Option<Remote>, ghost ctx: Ctx, merged: bool) returns (r: Option<Outcome>)
      requires ctx.op == Push && ctx.merged == merged
      modifies this
      ensures r == None ==>
        Drive(env, old(State()), Export(ctx, base)) == Drive(env, State(), NextAttempt(ctx))
      ensures r.Some? ==> Drive(env, old(State()), Export(ctx, base)) == (State(), r.value)
    {
      hide Drive;
      Turn(env, State(), Export(ctx, base));
      var reply := Ask(ExportBundle);
      if reply.Exported? {
        var text, key := reply.text, reply.key;
        if base.Some? && base.value.manifest.brainHash == env.hash(text) {
          Turn(env, State(), Finished(UpToDate(base.value.manifest.generation, merged)));
          return Some(UpToDate(base.value.manifest.generation, merged));
        }
        Turn(env, State(), PutObject(ctx, base, text, key));
        reply := Ask(PutBlob(key, SealObject(env, key, text)));
        if reply == Done {
          r := Land(env, base, text, key, ctx, merged);
          return;
        }
      }
      Turn(env, State(), Finished(Failed(TransportError)));
      return Some(Failed(TransportError));
    }

    method PushAll(env: Env) returns (outcome: Outcome)
      modifies this
      ensures (State(), outcome) == Drive(env, old(State()), SyncProtocol.Begin(Push))
    {
      hide Drive;
      var merged := false;
      var attempt := 1;
      while attempt <= MAX_CAS_ATTEMPTS
        invariant 1 <= attempt <= MAX_CAS_ATTEMPTS + 1
        invariant Drive(env, old(State()), SyncProtocol.Begin(Push))
          == Drive(env, State(),
                   if attempt <= MAX_CAS_ATTEMPTS then ReadManifest(Ctx(Push, attempt, merged))
                   else Finished(Failed(SyncConflict)))
      {
        ghost var ctx := Ctx(Push, attempt, merged);
        Turn(env, State(), ReadManifest(ctx));
        var read := ReadRemote(env);
        if read.Err? {
          Turn(env, State(), Finished(Failed(read.error)));
          return Failed(read.error);
        }
        var remote := read.value;
        if remote == None && lastSeen > 0 {
          Turn(env, State(), Finished(Failed(RollbackDetected)));
          return Failed(RollbackDetected);
        }
        if remote.Some? {
          var merge := MergeRemote(env, remote.value, ctx);
          if merge == Ok(DidMerge) {
            merged := true;
          } else if merge == Err(ObjectMissing) {
            attempt := attempt + 1;
            continue;
          } else if merge.Err? {
            Turn(env, State(), Finished(Failed(merge.error)));
            return Failed(merge.error);
          }
        }
        var done := Publish(env, remote, Ctx(Push, attempt, merged), merged);
        if done.Some? {
          return done.value;
        }
        attempt := attempt + 1;
      }
      Turn(env, State(), Finished(Failed(SyncConflict)));
      return Failed(SyncConflict);
    }
  }

  // ---------- Any remote, honest or not ----------

  predicate StrictlyIncreasing(s: seq<nat>) {
    forall n, k :: 0 <= n < k < |s| ==> s[n] < s[k]
  }

  // Last-seen is at least every generation in `imported`, unless a last-seen write has failed.
  predicate Tracks(l: Local) {
    l.unpersisted || (StrictlyIncreasing(l.imported) && forall n :: 0 <= n < |l.imported| ==> l.imported[n] <= l.lastSeen)
  }

  predicate Orderly(l: Local, phase: Phase) {
    match phase
    case ReadManifest(_) => Tracks(l)
    case FetchObject(_, r) => Tracks(l) && l.lastSeen < r.manifest.generation
    case Import(_, r, _) => Tracks(l) && l.lastSeen < r.manifest.generation
    case PersistMerged(_, r) =>
      && l.lastSeen < r.manifest.generation
      && (l.unpersisted || Tracks(l.(lastSeen := r.manifest.generation)))
    case Export(_, base) => Tracks(l) && l.lastSeen <= GenerationOf(base)
    case PutObject(_, base, _, _) => Tracks(l) && l.lastSeen <= GenerationOf(base)
    case PutManifest(_, base, _, _) => Tracks(l) && l.lastSeen <= GenerationOf(base)
    case Discard(_, _) => Tracks(l)
    case PersistPushed(_, base, _) => Tracks(l) && l.lastSeen <= GenerationOf(base)
    case DeleteSuperseded(_, _) => Tracks(l)
    case Finished(_) => Tracks(l)
  }

  lemma OneCallStaysOrderly(env: Env, l: Local, phase: Phase)
    requires !phase.Finished? && Orderly(l, phase)
    ensures Orderly(Make(env, l, phase), Resume(env, l.lastSeen, phase, NextReply(l)))
    ensures l.lastSeen <= Make(env, l, phase).lastSeen
  {
    if phase.Import? || phase.PersistMerged? || phase.PersistPushed? {
      MergingStaysOrderly(env, l, phase);
    } else {
      assert Make(env, l, phase) == Asked(l, RequestOf(env, phase));
      hide Make, RequestOf;
    }
  }

  lemma MergingStaysOrderly(env: Env, l: Local, phase: Phase)
    requires Orderly(l, phase) && (phase.Import? || phase.PersistMerged? || phase.PersistPushed?)
    ensures Orderly(Make(env, l, phase), Resume(env, l.lastSeen, phase, NextReply(l)))
    ensures l.lastSeen <= Make(env, l, phase).lastSeen
  {
    hide RequestOf;
  }

  lemma {:induction false} OneOperationStaysOrderly(env: Env, l: Local, phase: Phase)
    requires Orderly(l, phase)
    ensures Tracks(Drive(env, l, phase).0) && l.lastSeen <= Drive(env, l, phase).0.lastSeen
    decreases Rank(phase)
  {
    Turn(env, l, phase);
    if !phase.Finished? {
      ResumeMakesProgress(env, l.lastSeen, phase, NextReply(l));
      OneCallStaysOrderly(env, l, phase);
      OneOperationStaysOrderly(env, Make(env, l, phase), Resume(env, l.lastSeen, phase, NextReply(l)));
    }
  }

  // A machine's serial life: one operation after another.
  function Session(env: Env, l: Local, ops: seq<Op>): Local
    decreases |ops|
  {
    if ops == [] then l
    else Session(env, Drive(env, l, SyncProtocol.Begin(ops[0])).0, ops[1..])
  }

  /** Whatever the remote answers, a machine whose last-seen writes succeed imports strictly
      increasing generations, and last-seen never falls. */
  lemma {:induction false} ImportsOnlyMoveForward(env: Env, l: Local, ops: seq<Op>)
    requires Tracks(l)
    ensures var done := Session(env, l, ops);
      && l.lastSeen <= done.lastSeen
      && (!done.unpersisted ==> StrictlyIncreasing(done.imported))
      && Tracks(done)
    decreases |ops|
  {
    if ops != [] {
      var first := Drive(env, l, SyncProtocol.Begin(ops[0])).0;
      OneOperationStaysOrderly(env, l, SyncProtocol.Begin(ops[0]));
      ImportsOnlyMoveForward(env, first, ops[1..]);
    }
  }

  /** A rolled-back manifest is refused before anything is fetched, imported or written. */
  lemma RollbackIsRefused(env: Env, l: Local, op: Op, m: Manifest, etag: Etag)
    requires Lawful(env) && m.generation < l.lastSeen
    requires NextReply(l) == ManifestIs(Some((SealManifest(env, m), etag)))
    ensures Drive(env, l, SyncProtocol.Begin(op)) == (Asked(l, GetManifest), Failed(RollbackDetected))
  {
    Turn(env, l, SyncProtocol.Begin(op));
    Turn(env, Asked(l, GetManifest), Finished(Failed(RollbackDetected)));
  }

  // ---------- An operation whose calls are answered ----------

  // The next answers are a manifest newer than what was seen, its object, and two calls done.
  predicate OffersNewer(env: Env, l: Local) {
    && l.script != [] && l.script[0].ManifestIs? && l.script[0].found.Some?
    && var m := OpenManifest(env, l.script[0].found.value.0);
    m.Ok? && l.lastSeen < m.value.generation && OffersObject(env, l.script[1..], m.value)
  }

  predicate OffersObject(env: Env, script: seq<Reply>, m: Manifest) {
    && |script| >= 3 && script[0].ObjectIs? && script[0].blob.Some? && OpenBundle(env, m, script[0].blob.value).Ok?
    && script[1] == Done && script[2] == Done
  }

  lemma ImportMergesIff(env: Env, l: Local, ctx: Ctx, remote: Remote, text: string)
    requires ctx.op == Pull
    ensures var g := remote.manifest.generation;
      var end := Drive(env, l, Import(ctx, remote, text));
      && (end.1.Merged? <==> |l.script| >= 2 && l.script[0] == Done && l.script[1] == Done)
      && (end.1.Merged? ==> end == (Local(g, l.script[2..], l.calls + [ImportBundle(text), PersistLastSeen(g)],
                                          l.imported + [g], l.unpersisted), Merged(g)))
  {
    hide Drive;
    Turn(env, l, Import(ctx, remote, text));
    var l1, p1 := Make(env, l, Import(ctx, remote, text)), Resume(env, l.lastSeen, Import(ctx, remote, text), NextReply(l));
    Turn(env, l1, p1);
    if !p1.Finished? {
      Turn(env, Make(env, l1, p1), Resume(env, l1.lastSeen, p1, NextReply(l1)));
      assert |l.script| >= 2 ==> l.script[1..][1..] == l.script[2..];
      OneByOne(l.calls, ImportBundle(text), [PersistLastSeen(remote.manifest.generation)]);
    }
  }

  lemma OneByOne<T>(s: seq<T>, x: T, more: seq<T>)
    ensures s + [x] + more == s + ([x] + more)
    ensures |more| == 1 ==> [x] + more == [x, more[0]]
    ensures |more| == 2 ==> [x] + more == [x, more[0], more[1]]
    ensures |more| == 3 ==> [x] + more == [x, more[0], more[1], more[2]]
  {
  }

  lemma FetchMergesIff(env: Env, l: Local, ctx: Ctx, remote: Remote)
    requires ctx.op == Pull
    ensures var m := remote.manifest;
      var end := Drive(env, l, FetchObject(ctx, remote));
      && (end.1.Merged? <==> OffersObject(env, l.script, m))
      && (end.1.Merged? ==>
            end == (Local(m.generation, l.script[3..],
                          l.calls + [GetObject(m.objectKey), ImportBundle(OpenBundle(env, m, l.script[0].blob.value).value),
                                     PersistLastSeen(m.generation)],
                          l.imported + [m.generation], l.unpersisted), Merged(m.generation)))
  {
    hide Drive, OpenBundle;
    Turn(env, l, FetchObject(ctx, remote));
    var l1, p1 := Asked(l, GetObject(remote.manifest.objectKey)), Resume(env, l.lastSeen, FetchObject(ctx, remote), NextReply(l));
    if p1.Import? {
      ImportMergesIff(env, l1, ctx, remote, p1.text);
      assert |l.script| >= 3 ==> l.script[1..][2..] == l.script[3..];
      OneByOne(l.calls, GetObject(remote.manifest.objectKey),
        [ImportBundle(p1.text), PersistLastSeen(remote.manifest.generation)]);
    } else {
      Turn(env, l1, p1);
    }
  }

  /** A pull merges exactly when it is offered a newer generation: it then fetches the object of that manifest, imports
      its text and remembers the generation. */
  lemma PullMergesIff(env: Env, l: Local)
    ensures Drive(env, l, SyncProtocol.Begin(Pull)).1.Merged? <==> OffersNewer(env, l)
    ensures OffersNewer(env, l) ==>
      var m := OpenManifest(env, l.script[0].found.value.0).value;
      var text := OpenBundle(env, m, l.script[1].blob.value).value;
      var g := m.generation;
      Drive(env, l, SyncProtocol.Begin(Pull)) ==
        (Local(g, l.script[4..], l.calls + [GetManifest, GetObject(m.objectKey), ImportBundle(text), PersistLastSeen(g)],
               l.imported + [g], l.unpersisted), Merged(g))
  {
    hide Drive, OpenManifest, OpenBundle;
    var ctx := Ctx(Pull, 1, false);
    Turn(env, l, ReadManifest(ctx));
    var l1, p1 := Asked(l, GetManifest), Resume(env, l.lastSeen, ReadManifest(ctx), NextReply(l));
    if p1.FetchObject? {
      FetchMergesIff(env, l1, ctx, p1.remote);
      assert |l.script| >= 4 ==> l.script[1..][3..] == l.script[4..];
      var m := p1.remote.manifest;
      if OffersNewer(env, l) {
        OneByOne(l.calls, GetManifest, [GetObject(m.objectKey),
          ImportBundle(OpenBundle(env, m, l.script[1].blob.value).value), PersistLastSeen(m.generation)]);
      }
    } else {
      Turn(env, l1, p1);
    }
  }

  // The next answers are the manifest this machine saw last, or none, and its own export; then all calls are done.
  predicate Undisturbed(env: Env, l: Local, base: Option<Remote>, text: string, key: ObjectKey) {
    && |l.script| >= 6 && l.script[1] == Exported(text, key)
    && l.script[2] == Done && l.script[3] == Done && l.script[4] == Done
    && l.lastSeen == GenerationOf(base)
    && l.script[0] == (if base.None? then ManifestIs(None)
                       else ManifestIs(Some((SealManifest(env, base.value.manifest), base.value.etag))))
  }

  /** An undisturbed push stores exactly its export: nothing is written when the remote has it already; otherwise the
      sealed bundle, and then the manifest of the next generation that names and hashes it. */
  lemma UndisturbedPush(env: Env, l: Local, base: Option<Remote>, text: string, key: ObjectKey)
    requires Lawful(env) && Undisturbed(env, l, base, text, key)
    ensures var (done, outcome) := Drive(env, l, SyncProtocol.Begin(Push));
      var g := GenerationOf(base);
      if base.Some? && base.value.manifest.brainHash == env.hash(text) then
        outcome == UpToDate(g, false) && done.calls == l.calls + [GetManifest, ExportBundle] && done.lastSeen == g
      else
        && outcome == Pushed(g + 1, false) && done.lastSeen == g + 1
        && l.calls + [GetManifest, ExportBundle, PutBlob(key, SealObject(env, key, text)),
                      PutManifestIf(SealManifest(env, Manifest(g + 1, env.hash(text), key)),
                                    if base.Some? then Some(base.value.etag) else None),
                      PersistLastSeen(g + 1)] <= done.calls
  {
    hide Drive;
    var ctx := Ctx(Push, 1, false);
    Turn(env, l, ReadManifest(ctx));
    if base.Some? {
      assert OpenManifest(env, SealManifest(env, base.value.manifest)) == Ok(base.value.manifest);
    }
    hide Lawful, OpenManifest, SealManifest;
    var l1 := Asked(l, GetManifest);
    Turn(env, l1, Export(ctx, base));
    var l2 := Asked(l1, ExportBundle);
    if base.Some? && base.value.manifest.brainHash == env.hash(text) {
      Turn(env, l2, Finished(UpToDate(GenerationOf(base), false)));
    } else {
      AnsweredPutLands(env, l2, ctx, base, text, key);
    }
  }

  lemma AnsweredPutLands(env: Env, l: Local, ctx: Ctx, base: Option<Remote>, text: string, key: ObjectKey)
    requires |l.script| >= 3 && l.script[0] == Done && l.script[1] == Done && l.script[2] == Done
    ensures var (done, outcome) := Drive(env, l, PutObject(ctx, base, text, key));
      var g := GenerationOf(base);
      && outcome == Pushed(g + 1, ctx.merged) && done.lastSeen == g + 1
      && l.calls + [PutBlob(key, SealObject(env, key, text)),
                    PutManifestIf(SealManifest(env, NewManifest(env, base, text, key)),
                                  if base.Some? then Some(base.value.etag) else None),
                    PersistLastSeen(g + 1)] <= done.calls
  {
    hide Drive, SealManifest, SealObject, NewManifest;
    Turn(env, l, PutObject(ctx, base, text, key));
    var l1 := Make(env, l, PutObject(ctx, base, text, key));
    Turn(env, l1, PutManifest(ctx, base, text, key));
    AnsweredPersistEnds(env, Make(env, l1, PutManifest(ctx, base, text, key)), ctx, base, key);
  }

  lemma AnsweredPersistEnds(env: Env, l: Local, ctx: Ctx, base: Option<Remote>, key: ObjectKey)
    requires NextReply(l) == Done
    ensures var (done, outcome) := Drive(env, l, PersistPushed(ctx, base, key));
      var g := GenerationOf(base);
      outcome == Pushed(g + 1, ctx.merged) && done.lastSeen == g + 1 && l.calls + [PersistLastSeen(g + 1)] <= done.calls
  {
    hide Drive;
    Turn(env, l, PersistPushed(ctx, base, key));
    var l1, p1 := Make(env, l, PersistPushed(ctx, base, key)), Resume(env, l.lastSeen, PersistPushed(ctx, base, key), Done);
    Turn(env, l1, p1);
    if !p1.Finished? {
      Turn(env, Make(env, l1, p1), Resume(env, l1.lastSeen, p1, NextReply(l1)));
    }
  }
}
