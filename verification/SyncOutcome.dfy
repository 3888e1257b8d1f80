/** What the outcome of an operation says of the calls it made, in every run: a push leaves its own export on the
 *  remote, `merged` means that something was imported, and a failure has a cause.
 */
module SyncOutcome {
  import opened Prelude
  import opened SyncProtocol
  import opened SyncWorld
  import opened SyncSafety

  // What machine i has done since its current operation began: the bundle it exported last, whether it imported one,
  // and whether it crashed or had a call that broke.  A delete that breaks is ignored.
  datatype History = History(op: Op, exported: Option<string>, imported: bool, broken: bool)

  function Noted(w: World, i: nat, h: History, a: Action): History
    requires i < |w.machines|
  {
    match a
    case StartOp(j, op) => if j == i then History(op, None, false, false) else h
    case Crash(j) => if j == i then h.(broken := true) else h
    case Call(j, reply, _, took) =>
      if j != i then h
      else
        var phase := w.machines[i].phase;
        h.(exported := if reply.Exported? then Some(reply.text) else h.exported,
           imported := h.imported || (phase.Import? && took),
           broken := h.broken || (reply == Broken && !phase.Discard? && !phase.DeleteSuperseded?))
    case _ => h
  }

  ghost function HistoryAfter(env: Env, w: World, i: nat, h: History, run: seq<Action>): History
    requires CanRun(env, w, run) && i < |w.machines|
    decreases |run|
  {
    if run == [] then h else HistoryAfter(env, Next(env, w, run[0]), i, Noted(w, i, h, run[0]), run[1..])
  }

  // Entry number g of the log is the bundle that was exported last.
  predicate Published(log: seq<Entry>, h: History, g: nat) {
    0 < g <= |log| && h.exported == Some(log[g - 1].text)
  }

  predicate UnderWay(ctx: Ctx, h: History) {
    ctx.op == h.op && ctx.merged == h.imported && !h.broken && (h.op == Pull ==> !h.imported)
  }

  predicate PushUnderWay(ctx: Ctx, h: History) {
    UnderWay(ctx, h) && h.op == Push
  }

  ghost predicate Explains(log: seq<Entry>, i: nat, m: Machine, h: History) {
    match m.phase
    case ReadManifest(ctx) => UnderWay(ctx, h)
    case FetchObject(ctx, _) => UnderWay(ctx, h)
    case Import(ctx, _, _) => UnderWay(ctx, h)
    case PersistMerged(ctx, _) => ctx.op == h.op && h.imported && !h.broken
    case Export(ctx, _) => PushUnderWay(ctx, h)
    case PutObject(ctx, _, text, _) => PushUnderWay(ctx, h) && h.exported == Some(text)
    case PutManifest(ctx, _, text, _) => PushUnderWay(ctx, h) && h.exported == Some(text)
    case Discard(ctx, _) => PushUnderWay(ctx, h)
    case PersistPushed(ctx, base, _) =>
      PushUnderWay(ctx, h) && Published(log, h, GenerationOf(base) + 1) && Landed(log, i, m, GenerationOf(base) + 1)
    case DeleteSuperseded(ctx, r) =>
      && PushUnderWay(ctx, h) && Published(log, h, r.manifest.generation + 1)
      && Landed(log, i, m, r.manifest.generation + 1)
    case Finished(outcome) => OutcomeExplained(log, i, m, h, outcome)
  }

  // The machine itself wrote entry g since its operation began.
  predicate Landed(log: seq<Entry>, i: nat, m: Machine, g: nat) {
    m.start < g <= |log| && log[g - 1].author == i
  }

  ghost predicate OutcomeExplained(log: seq<Entry>, i: nat, m: Machine, h: History, outcome: Outcome) {
    && (outcome != NotRun ==> (h.broken <==> outcome == Failed(TransportError)))
    && match outcome
       case NotRun => true
       // Nothing had ever been published when the operation began.
       case Empty => h.op == Pull && !h.imported && m.start == 0
       case UpToDate(g, merged) =>
         && m.start <= g <= |log| && merged == h.imported
         && (h.op == Pull ==> g == m.lastSeen && !merged)
         && (h.op == Push ==> Published(log, h, g))
       case Merged(g) => m.start <= g <= |log| && h.op == Pull && h.imported
       case Pushed(g, merged) => h.op == Push && merged == h.imported && Published(log, h, g) && Landed(log, i, m, g)
       // The object was gone because somebody had published since.
       case Failed(e) =>
         && (e == ObjectMissing ==> h.op == Pull && !h.imported && m.start < |log|)
         && (e == SyncConflict ==> h.op == Push)
  }

  ghost predicate ExplainsAfter(env: Env, w: World, i: nat, h: History, reply: Reply, etag: Etag, took: bool)
    requires i < |w.machines|
  {
    var v := Answered(env, w, i, reply, etag, took);
    i < |v.machines| && Explains(v.log, i, v.machines[i], Noted(w, i, h, Call(i, reply, etag, took)))
  }

  // ---------- One call ----------

  lemma AfterTheCall(env: Env, w: World, i: nat, reply: Reply, etag: Etag, took: bool)
    requires i < |w.machines| && Possible(env, w, i, reply, etag, took)
    ensures var m, v := w.machines[i], Answered(env, w, i, reply, etag, took);
      && |v.machines| == |w.machines| && v.machines[i].start == m.start
      && v.machines[i].phase == Resume(env, v.machines[i].lastSeen, m.phase, reply)
      && (!m.phase.PersistMerged? && !m.phase.PersistPushed? ==> v.machines[i].lastSeen == m.lastSeen)
      && v.log == (if m.phase.PutManifest? && took then w.log + [NewEntry(env, m.phase, etag, i)] else w.log)
  {
  }

  lemma ReadIsExplained(env: Env, w: World, i: nat, h: History, reply: Reply, etag: Etag, took: bool)
    requires i < |w.machines| && Possible(env, w, i, reply, etag, took) && w.machines[i].phase.ReadManifest?
    requires Lawful(env) && StoreInv(env, w) && LogInv(env, w)
    requires MachineInv(env, w.log, i, w.machines[i]) && Explains(w.log, i, w.machines[i], h)
    ensures ExplainsAfter(env, w, i, h, reply, etag, took)
  {
    if w.log != [] {
      OwnManifestOpens(env, Last(w).manifest);
    }
    assert CtxOk(w.machines[i].phase.ctx, w.machines[i].start, |w.log|);
    AfterTheCall(env, w, i, reply, etag, took);
    hide Answered, Lawful, MachineInv;
  }

  lemma FetchIsExplained(env: Env, w: World, i: nat, h: History, reply: Reply, etag: Etag, took: bool)
    requires i < |w.machines| && Possible(env, w, i, reply, etag, took) && w.machines[i].phase.FetchObject?
    requires LogInv(env, w) && StoreInv(env, w)
    requires MachineInv(env, w.log, i, w.machines[i]) && Explains(w.log, i, w.machines[i], h)
    ensures ExplainsAfter(env, w, i, h, reply, etag, took)
  {
    AfterTheCall(env, w, i, reply, etag, took);
    hide Answered;
  }

  lemma MergeIsExplained(env: Env, w: World, i: nat, h: History, reply: Reply, etag: Etag, took: bool)
    requires i < |w.machines| && Possible(env, w, i, reply, etag, took) && (w.machines[i].phase.Import? || w.machines[i].phase.PersistMerged?)
    requires MachineInv(env, w.log, i, w.machines[i]) && Explains(w.log, i, w.machines[i], h)
    ensures ExplainsAfter(env, w, i, h, reply, etag, took)
  {
    AfterTheCall(env, w, i, reply, etag, took);
    hide Answered;
  }

  lemma ExportIsExplained(env: Env, w: World, i: nat, h: History, reply: Reply, etag: Etag, took: bool)
    requires i < |w.machines| && Possible(env, w, i, reply, etag, took) && w.machines[i].phase.Export?
    requires Lawful(env) && LogInv(env, w)
    requires MachineInv(env, w.log, i, w.machines[i]) && Explains(w.log, i, w.machines[i], h)
    ensures ExplainsAfter(env, w, i, h, reply, etag, took)
  {
    AfterTheCall(env, w, i, reply, etag, took);
    hide Answered;
  }

  lemma DraftIsExplained(env: Env, w: World, i: nat, h: History, reply: Reply, etag: Etag, took: bool)
    requires i < |w.machines| && Possible(env, w, i, reply, etag, took) && (w.machines[i].phase.PutObject? || w.machines[i].phase.Discard?)
    requires MachineInv(env, w.log, i, w.machines[i]) && Explains(w.log, i, w.machines[i], h)
    ensures ExplainsAfter(env, w, i, h, reply, etag, took)
  {
    AfterTheCall(env, w, i, reply, etag, took);
    hide Answered;
  }

  lemma PutManifestIsExplained(env: Env, w: World, i: nat, h: History, reply: Reply, etag: Etag, took: bool)
    requires i < |w.machines| && Possible(env, w, i, reply, etag, took) && w.machines[i].phase.PutManifest?
    requires LogInv(env, w) && StoreInv(env, w)
    requires MachineInv(env, w.log, i, w.machines[i]) && Explains(w.log, i, w.machines[i], h)
    ensures ExplainsAfter(env, w, i, h, reply, etag, took)
  {
    AfterTheCall(env, w, i, reply, etag, took);
    assert w.machines[i].start <= |w.log|;
    if took {
      assert Possible(env, w, i, Done, etag, true) && (reply == Done || reply == Broken);
      LandingExtendsTheLatest(env, w, i, etag);
      hide Answered, MachineInv, Possible, LogInv, StoreInv;
    } else {
      assert reply == Broken || reply == PreconditionFailed;
      hide Answered, MachineInv, Possible, LogInv, StoreInv;
    }
  }

  lemma EndIsExplained(env: Env, w: World, i: nat, h: History, reply: Reply, etag: Etag, took: bool)
    requires i < |w.machines| && Possible(env, w, i, reply, etag, took) && (w.machines[i].phase.PersistPushed? || w.machines[i].phase.DeleteSuperseded?)
    requires MachineInv(env, w.log, i, w.machines[i]) && Explains(w.log, i, w.machines[i], h)
    ensures ExplainsAfter(env, w, i, h, reply, etag, took)
  {
    AfterTheCall(env, w, i, reply, etag, took);
    hide Answered;
  }

  lemma CallIsExplained(env: Env, w: World, i: nat, h: History, reply: Reply, etag: Etag, took: bool)
    requires Lawful(env) && Inv(env, w) && i < |w.machines| && Possible(env, w, i, reply, etag, took)
    requires Explains(w.log, i, w.machines[i], h)
    ensures ExplainsAfter(env, w, i, h, reply, etag, took)
  {
    assert LogInv(env, w) && StoreInv(env, w) && MachineInv(env, w.log, i, w.machines[i]);
    hide *;
    match w.machines[i].phase
    case ReadManifest(_) => ReadIsExplained(env, w, i, h, reply, etag, took);
    case FetchObject(_, _) => FetchIsExplained(env, w, i, h, reply, etag, took);
    case Import(_, _, _) => MergeIsExplained(env, w, i, h, reply, etag, took);
    case PersistMerged(_, _) => MergeIsExplained(env, w, i, h, reply, etag, took);
    case Export(_, _) => ExportIsExplained(env, w, i, h, reply, etag, took);
    case PutObject(_, _, _, _) => DraftIsExplained(env, w, i, h, reply, etag, took);
    case PutManifest(_, _, _, _) => PutManifestIsExplained(env, w, i, h, reply, etag, took);
    case Discard(_, _) => DraftIsExplained(env, w, i, h, reply, etag, took);
    case PersistPushed(_, _, _) => EndIsExplained(env, w, i, h, reply, etag, took);
    case DeleteSuperseded(_, _) => EndIsExplained(env, w, i, h, reply, etag, took);
    case Finished(_) => NothingIsImpossible(env, w, i, reply, etag, took);
  }

  // ---------- Any step ----------

  // What others do only makes the log longer.
  lemma GrownLogExplains(log: seq<Entry>, more: seq<Entry>, i: nat, m: Machine, m': Machine, h: History)
    requires Explains(log, i, m, h) && log <= more
    requires m'.phase == m.phase && m'.lastSeen == m.lastSeen && m'.start == m.start
    ensures Explains(more, i, m', h)
  {
  }

  lemma StepIsExplained(env: Env, w: World, i: nat, h: History, a: Action)
    requires Lawful(env) && Inv(env, w) && i < |w.machines| && Enabled(env, w, a)
    requires Explains(w.log, i, w.machines[i], h)
    ensures var v := Next(env, w, a); i < |v.machines| && Explains(v.log, i, v.machines[i], Noted(w, i, h, a))
  {
    match a
    case Call(j, reply, etag, took) =>
      if j == i {
        CallIsExplained(env, w, i, h, reply, etag, took);
      } else {
        LogAfterCall(env, w, j, reply, etag, took);
        hide Lawful, Inv, Answered, Explains;
        GrownLogExplains(w.log, Next(env, w, a).log, i, w.machines[i], w.machines[i], h);
      }
    case StartOp(j, _) =>
    case Crash(j) =>
    case Edit(j, brain) =>
      hide Lawful, Inv, Explains;
      GrownLogExplains(w.log, w.log, i, w.machines[i], Next(env, w, a).machines[i], h);
    case LateDelete(_) =>
  }

  lemma {:induction false} RunIsExplained(env: Env, w: World, i: nat, h: History, run: seq<Action>)
    requires Lawful(env) && Inv(env, w) && CanRun(env, w, run) && i < |w.machines|
    requires Explains(w.log, i, w.machines[i], h)
    ensures var v := After(env, w, run);
      && Inv(env, v) && i < |v.machines|
      && Explains(v.log, i, v.machines[i], HistoryAfter(env, w, i, h, run))
    decreases |run|
  {
    if run != [] {
      StepKeepsInv(env, w, run[0]);
      StepIsExplained(env, w, i, h, run[0]);
      hide Inv, Explains, Lawful;
      RunIsExplained(env, Next(env, w, run[0]), i, Noted(w, i, h, run[0]), run[1..]);
    }
  }

  // ---------- Main results ----------

  const NoHistory := History(Push, None, false, false)

  /** In every run, the outcome of a machine's last operation says what the operation did. */
  lemma OutcomeTellsTheOperation(env: Env, w0: World, i: nat, run: seq<Action>)
    requires Lawful(env) && Initial(w0) && CanRun(env, w0, run) && i < |w0.machines|
    ensures var v := After(env, w0, run);
      && i < |v.machines|
      && (v.machines[i].phase.Finished? ==>
            OutcomeExplained(v.log, i, v.machines[i], HistoryAfter(env, w0, i, NoHistory, run), v.machines[i].phase.outcome))
  {
    InitialInv(env, w0);
    RunIsExplained(env, w0, i, NoHistory, run);
  }

  predicate Ends(outcome: Outcome, g: nat, merged: bool) {
    outcome == UpToDate(g, merged) || outcome == Pushed(g, merged)
  }

  /** A push that ends up to date or pushed at generation g has left there the very bundle it exported last, the
      remote covers it from then on, and `merged` says whether the push imported anything. */
  lemma PushLeavesItsExport(env: Env, w0: World, i: nat, run: seq<Action>, g: nat, merged: bool)
    requires Lawful(env) && Initial(w0) && CanRun(env, w0, run) && i < |w0.machines|
    ensures var v, h := After(env, w0, run), HistoryAfter(env, w0, i, NoHistory, run);
      && i < |v.machines|
      && (h.op == Push && v.machines[i].phase.Finished? && Ends(v.machines[i].phase.outcome, g, merged) ==>
            && Published(v.log, h, g) && merged == h.imported
            && RemoteBundle(env, v).Some? && env.covers(RemoteBundle(env, v).value, h.exported.value))
  {
    OutcomeTellsTheOperation(env, w0, i, run);
    InitialInv(env, w0);
    RunKeepsInv(env, w0, run);
    var v, h := After(env, w0, run), HistoryAfter(env, w0, i, NoHistory, run);
    RemoteIsLast(env, v);
    hide RemoteBundle, RemoteGeneration;
    if Published(v.log, h, g) {
      LatestCovers(env, v, g);
    }
  }

  lemma LatestCovers(env: Env, v: World, g: nat)
    requires Lawful(env) && LogInv(env, v) && 0 < g <= |v.log|
    ensures env.covers(Last(v).text, v.log[g - 1].text)
  {
    CoverageIsReflexive(env, Last(v).text);
    hide Lawful;
  }
}
