/** Safety of the brain-sync protocol over every run: what no interleaving of pushes, pulls,
 *  edits, crashes and late deletions can break.
 */
module SyncSafety {
  import opened Prelude
  import opened SyncProtocol
  import opened SyncWorld

  // ---------- The laws, one instance at a time ----------

  lemma CoverageIsTransitive(env: Env, t: string, u: string, v: string)
    requires Lawful(env) && env.covers(t, u) && env.covers(u, v)
    ensures env.covers(t, v)
  {
  }

  lemma ExportCoversImport(env: Env, b: Brain, t: string)
    requires Lawful(env)
    ensures env.covers(env.exportBundle(env.importBundle(b, t)), t)
  {
  }

  lemma CoverageIsReflexive(env: Env, t: string)
    requires Lawful(env)
    ensures env.covers(t, t)
  {
  }

  lemma OwnManifestOpens(env: Env, m: Manifest)
    requires Lawful(env)
    ensures OpenManifest(env, SealManifest(env, m)) == Ok(m)
  {
  }

  // ---------- What one call leaves behind ----------

  // A conditional put that lands extends exactly the entry it was based on.
  lemma LandingExtendsTheLatest(env: Env, w: World, i: nat, etag: Etag)
    requires i < |w.machines| && w.machines[i].phase.PutManifest?
    requires LogInv(env, w) && StoreInv(env, w) && MachineInv(env, w.log, i, w.machines[i])
    requires Possible(env, w, i, Done, etag, true)
    ensures GenerationOf(w.machines[i].phase.base) == |w.log|
    ensures w.log != [] ==> env.covers(w.machines[i].phase.text, Last(w).text)
  {
    var base := w.machines[i].phase.base;
    if base.Some? {
      assert w.register == Some((SealManifest(env, Last(w).manifest), Last(w).etag));
      var n := base.value.manifest.generation - 1;
      assert w.log[n].etag == Last(w).etag;
    }
  }

  lemma GrownLogKeepsPhase(env: Env, log: seq<Entry>, e: Entry, m: Machine)
    requires PhaseOk(env, log, m)
    ensures PhaseOk(env, log + [e], m)
  {
  }

  lemma GrownLogKeepsMachine(env: Env, log: seq<Entry>, e: Entry, i: nat, m: Machine)
    requires MachineInv(env, log, i, m) && (StillUnwritten(m.phase) ==> e.author != i)
    ensures MachineInv(env, log + [e], i, m)
  {
    hide Lawful;
    var grown := log + [e];
    assert forall n :: 0 <= n < |log| ==> grown[n] == log[n];
    assert PhaseOk(env, grown, m) by {
      GrownLogKeepsPhase(env, log, e, m);
    }
    hide PhaseOk;
  }

  // The log after a call is the log before, or one entry longer.
  lemma LogAfterCall(env: Env, w: World, i: nat, reply: Reply, etag: Etag, took: bool)
    requires i < |w.machines| && Possible(env, w, i, reply, etag, took)
    ensures var v := Answered(env, w, i, reply, etag, took);
      var m := w.machines[i];
      && |v.machines| == |w.machines|
      && (forall j :: 0 <= j < |w.machines| && j != i ==> v.machines[j] == w.machines[j])
      && v.log == (if m.phase.PutManifest? && took then w.log + [NewEntry(env, m.phase, etag, i)] else w.log)
  {
  }

  lemma LandingKeepsLog(env: Env, w: World, i: nat, etag: Etag)
    requires Lawful(env)
    requires i < |w.machines| && w.machines[i].phase.PutManifest? && Possible(env, w, i, Done, etag, true)
    requires LogInv(env, w) && StoreInv(env, w) && MachineInv(env, w.log, i, w.machines[i])
    requires HeldOk(env, w, w.machines[i].phase)
    ensures LogInv(env, Effect(env, w, i, Done, etag))
  {
    hide Lawful;
    LandingExtendsTheLatest(env, w, i, etag);
    hide StoreInv, MachineInv, Possible;
    var e := NewEntry(env, w.machines[i].phase, etag, i);
    forall n | 0 <= n < |w.log|
      ensures env.covers(e.text, w.log[n].text)
    {
      if n < |w.log| - 1 {
        assert env.covers(Last(w).text, w.log[n].text);
        CoverageIsTransitive(env, e.text, Last(w).text, w.log[n].text);
      }
    }
  }

  lemma CallKeepsLog(env: Env, w: World, i: nat, reply: Reply, etag: Etag, took: bool)
    requires Lawful(env)
    requires i < |w.machines| && Possible(env, w, i, reply, etag, took)
    requires LogInv(env, w) && StoreInv(env, w) && MachineInv(env, w.log, i, w.machines[i])
    requires HeldOk(env, w, w.machines[i].phase)
    ensures LogInv(env, Answered(env, w, i, reply, etag, took))
  {
    if w.machines[i].phase.PutManifest? && took {
      LandingKeepsLog(env, w, i, etag);
      hide Lawful, MachineInv, HeldOk, LogInv, StoreInv;
    } else {
      OtherCallKeepsLog(env, w, i, reply, etag, took);
      hide Lawful, MachineInv, HeldOk, LogInv, StoreInv;
    }
  }

  lemma OtherCallKeepsLog(env: Env, w: World, i: nat, reply: Reply, etag: Etag, took: bool)
    requires i < |w.machines| && Possible(env, w, i, reply, etag, took) && LogInv(env, w)
    requires !(w.machines[i].phase.PutManifest? && took)
    ensures LogInv(env, Answered(env, w, i, reply, etag, took))
  {
    var v := Answered(env, w, i, reply, etag, took);
    assert v.log == w.log && w.keys <= v.keys && w.etags <= v.etags;
    hide Answered, Possible;
  }

  lemma LandingKeepsStore(env: Env, w: World, i: nat, etag: Etag)
    requires i < |w.machines| && w.machines[i].phase.PutManifest? && Possible(env, w, i, Done, etag, true)
    requires LogInv(env, w) && StoreInv(env, w) && MachineInv(env, w.log, i, w.machines[i])
    requires HeldOk(env, w, w.machines[i].phase)
    ensures StoreInv(env, Effect(env, w, i, Done, etag))
  {
    LandingExtendsTheLatest(env, w, i, etag);
    hide MachineInv, Possible;
  }

  lemma CallKeepsStore(env: Env, w: World, i: nat, reply: Reply, etag: Etag, took: bool)
    requires i < |w.machines| && Possible(env, w, i, reply, etag, took)
    requires LogInv(env, w) && StoreInv(env, w) && MachineInv(env, w.log, i, w.machines[i])
    requires HeldOk(env, w, w.machines[i].phase)
    ensures StoreInv(env, Answered(env, w, i, reply, etag, took))
  {
    if took && w.machines[i].phase.PutManifest? {
      LandingKeepsStore(env, w, i, etag);
    } else if took && w.machines[i].phase.DeleteSuperseded? {
      DeleteSupersededKeepsStore(env, w, i, reply, etag);
    } else {
      OtherCallKeepsStore(env, w, i, reply, etag, took);
    }
  }

  lemma DeleteSupersededKeepsStore(env: Env, w: World, i: nat, reply: Reply, etag: Etag)
    requires i < |w.machines| && w.machines[i].phase.DeleteSuperseded? && StoreInv(env, w) && LogInv(env, w)
    requires MachineInv(env, w.log, i, w.machines[i])
    ensures StoreInv(env, Answered(env, w, i, reply, etag, true))
  {
    var g := w.machines[i].phase.remote.manifest.generation;
    assert w.log[g - 1].manifest.objectKey != Last(w).manifest.objectKey;
  }

  lemma OtherCallKeepsStore(env: Env, w: World, i: nat, reply: Reply, etag: Etag, took: bool)
    requires i < |w.machines| && Possible(env, w, i, reply, etag, took)
    requires StoreInv(env, w) && HeldOk(env, w, w.machines[i].phase)
    requires !took || !(w.machines[i].phase.PutManifest? || w.machines[i].phase.DeleteSuperseded?)
    ensures StoreInv(env, Answered(env, w, i, reply, etag, took))
  {
  }

  // A call hands the caller at most one key, and that key is fresh.
  lemma HeldAfterCall(env: Env, w: World, i: nat, reply: Reply, etag: Etag, took: bool)
    requires i < |w.machines| && Possible(env, w, i, reply, etag, took)
    ensures var v := Answered(env, w, i, reply, etag, took);
      var m := w.machines[i];
      && (!(m.phase.Export? && took) ==> v.keys == w.keys && Held(v.machines[i].phase) <= Held(m.phase))
      && (m.phase.Export? && took ==>
            v.keys == w.keys + {reply.key} && reply.key !in w.keys && Held(v.machines[i].phase) <= {reply.key})
  {
  }

  // Only a key that was discarded or superseded is ever deleted.
  lemma DoomedAfterCall(env: Env, w: World, i: nat, reply: Reply, etag: Etag, took: bool)
    requires i < |w.machines| && Possible(env, w, i, reply, etag, took)
    requires LogInv(env, w) && MachineInv(env, w.log, i, w.machines[i]) && HeldOk(env, w, w.machines[i].phase)
    ensures var v := Answered(env, w, i, reply, etag, took);
      forall k :: k in v.doomed - w.doomed ==>
        && k in w.keys
        && k !in Held(v.machines[i].phase)
        && (k in Held(w.machines[i].phase) || exists n :: 0 <= n < |w.log| - 1 && w.log[n].manifest.objectKey == k)
  {
    var m := w.machines[i];
    if m.phase.DeleteSuperseded? {
      var n := m.phase.remote.manifest.generation - 1;
      assert 0 <= n < |w.log| - 1 && w.log[n].manifest.objectKey == m.phase.remote.manifest.objectKey;
    }
  }

  lemma CallKeepsHeld(env: Env, w: World, i: nat, reply: Reply, etag: Etag, took: bool, j: nat)
    requires i < |w.machines| && j < |w.machines| && Possible(env, w, i, reply, etag, took)
    requires LogInv(env, w) && KeysInv(env, w) && MachineInv(env, w.log, i, w.machines[i])
    ensures var v := Answered(env, w, i, reply, etag, took);
      && Held(v.machines[j].phase) <= v.keys
      && Held(v.machines[j].phase) !! v.doomed
      && (forall n :: 0 <= n < |v.log| ==> v.log[n].manifest.objectKey !in Held(v.machines[j].phase))
  {
    assert HeldOk(env, w, w.machines[j].phase) && HeldOk(env, w, w.machines[i].phase);
    LogAfterCall(env, w, i, reply, etag, took);
    HeldAfterCall(env, w, i, reply, etag, took);
    DoomedAfterCall(env, w, i, reply, etag, took);
    if j != i {
      assert Held(w.machines[i].phase) !! Held(w.machines[j].phase);
    } else if w.machines[i].phase.PutManifest? && took {
      assert Held(Answered(env, w, i, reply, etag, took).machines[i].phase) == {};
    }
  }

  // Nobody overwrites the object a machine is about to publish.
  lemma CallKeepsPending(env: Env, w: World, i: nat, reply: Reply, etag: Etag, took: bool, j: nat)
    requires i < |w.machines| && j < |w.machines| && Possible(env, w, i, reply, etag, took)
    requires LogInv(env, w) && KeysInv(env, w) && MachineInv(env, w.log, i, w.machines[i])
    ensures var v := Answered(env, w, i, reply, etag, took);
      var p := v.machines[j].phase;
      p.PutManifest? ==> p.key in v.objects && v.objects[p.key] == SealObject(env, p.key, p.text)
  {
    assert HeldOk(env, w, w.machines[j].phase);
    LogAfterCall(env, w, i, reply, etag, took);
    if j != i {
      assert Held(w.machines[i].phase) !! Held(w.machines[j].phase);
    }
  }

  lemma CallKeepsKeys(env: Env, w: World, i: nat, reply: Reply, etag: Etag, took: bool)
    requires i < |w.machines| && Possible(env, w, i, reply, etag, took)
    requires LogInv(env, w) && KeysInv(env, w) && MachineInv(env, w.log, i, w.machines[i])
    ensures KeysInv(env, Answered(env, w, i, reply, etag, took))
  {
    var v := Answered(env, w, i, reply, etag, took);
    LogAfterCall(env, w, i, reply, etag, took);
    HeldAfterCall(env, w, i, reply, etag, took);
    DoomedAfterCall(env, w, i, reply, etag, took);
    forall j | 0 <= j < |v.machines|
      ensures HeldOk(env, v, v.machines[j].phase)
    {
      CallKeepsHeld(env, w, i, reply, etag, took, j);
      CallKeepsPending(env, w, i, reply, etag, took, j);
    }
    hide Answered, Possible, LogInv, MachineInv, Held;
    forall j, k | 0 <= j < k < |v.machines|
      ensures Held(v.machines[j].phase) !! Held(v.machines[k].phase)
    {
      assert HeldOk(env, w, w.machines[j].phase) && HeldOk(env, w, w.machines[k].phase);
      assert Held(w.machines[j].phase) !! Held(w.machines[k].phase);
    }
  }

  // ---------- The calling machine ----------

  lemma ReadKeepsCaller(env: Env, w: World, i: nat, reply: Reply, etag: Etag, took: bool)
    requires Lawful(env)
    requires i < |w.machines| && Possible(env, w, i, reply, etag, took)
    requires LogInv(env, w) && StoreInv(env, w) && MachineInv(env, w.log, i, w.machines[i])
    requires w.machines[i].phase.ReadManifest?
    ensures var v := Answered(env, w, i, reply, etag, took); MachineInv(env, v.log, i, v.machines[i])
  {
    hide Lawful;
    if w.log != [] {
      OwnManifestOpens(env, Last(w).manifest);
    }
  }

  // A manifest whose object is gone has been superseded: the latest object always exists.
  lemma FetchKeepsCaller(env: Env, w: World, i: nat, reply: Reply, etag: Etag, took: bool)
    requires i < |w.machines| && Possible(env, w, i, reply, etag, took)
    requires LogInv(env, w) && StoreInv(env, w) && MachineInv(env, w.log, i, w.machines[i])
    requires w.machines[i].phase.FetchObject?
    ensures var v := Answered(env, w, i, reply, etag, took); MachineInv(env, v.log, i, v.machines[i])
  {
  }

  lemma ImportKeepsCaller(env: Env, w: World, i: nat, reply: Reply, etag: Etag, took: bool)
    requires Lawful(env)
    requires i < |w.machines| && Possible(env, w, i, reply, etag, took)
    requires LogInv(env, w) && StoreInv(env, w) && MachineInv(env, w.log, i, w.machines[i])
    requires w.machines[i].phase.Import?
    ensures var v := Answered(env, w, i, reply, etag, took); MachineInv(env, v.log, i, v.machines[i])
  {
    hide Lawful;
    var m := w.machines[i];
    var g := m.phase.remote.manifest.generation;
    ExportCoversImport(env, m.brain, m.phase.text);
    if m.lastSeen > 0 {
      assert env.covers(w.log[g - 1].text, w.log[m.lastSeen - 1].text);
      CoverageIsTransitive(env, env.exportBundle(env.importBundle(m.brain, m.phase.text)), w.log[g - 1].text,
                           w.log[m.lastSeen - 1].text);
    }
  }

  lemma PutManifestKeepsCaller(env: Env, w: World, i: nat, reply: Reply, etag: Etag, took: bool)
    requires i < |w.machines| && Possible(env, w, i, reply, etag, took)
    requires LogInv(env, w) && StoreInv(env, w) && MachineInv(env, w.log, i, w.machines[i])
    requires w.machines[i].phase.PutManifest?
    ensures var v := Answered(env, w, i, reply, etag, took); MachineInv(env, v.log, i, v.machines[i])
  {
    if took {
      LandedManifestKeepsCaller(env, w, i, reply, etag);
    } else {
      RefusedManifestKeepsCaller(env, w, i, reply, etag);
    }
  }

  lemma LandedManifestKeepsCaller(env: Env, w: World, i: nat, reply: Reply, etag: Etag)
    requires i < |w.machines| && Possible(env, w, i, reply, etag, true)
    requires LogInv(env, w) && StoreInv(env, w) && MachineInv(env, w.log, i, w.machines[i])
    requires w.machines[i].phase.PutManifest?
    ensures var v := Answered(env, w, i, reply, etag, true); MachineInv(env, v.log, i, v.machines[i])
  {
    LandingExtendsTheLatest(env, w, i, etag);
    hide StoreInv;
  }

  lemma RefusedManifestKeepsCaller(env: Env, w: World, i: nat, reply: Reply, etag: Etag)
    requires i < |w.machines| && Possible(env, w, i, reply, etag, false)
    requires LogInv(env, w) && StoreInv(env, w) && MachineInv(env, w.log, i, w.machines[i])
    requires w.machines[i].phase.PutManifest?
    ensures var v := Answered(env, w, i, reply, etag, false); MachineInv(env, v.log, i, v.machines[i])
  {
  }

  lemma PersistMergedKeepsCaller(env: Env, w: World, i: nat, reply: Reply, etag: Etag, took: bool)
    requires i < |w.machines| && Possible(env, w, i, reply, etag, took)
    requires MachineInv(env, w.log, i, w.machines[i])
    requires w.machines[i].phase.PersistMerged?
    ensures var v := Answered(env, w, i, reply, etag, took); MachineInv(env, v.log, i, v.machines[i])
  {
  }

  lemma PersistPushedKeepsCaller(env: Env, w: World, i: nat, reply: Reply, etag: Etag, took: bool)
    requires i < |w.machines| && Possible(env, w, i, reply, etag, took)
    requires MachineInv(env, w.log, i, w.machines[i])
    requires w.machines[i].phase.PersistPushed?
    ensures var v := Answered(env, w, i, reply, etag, took); MachineInv(env, v.log, i, v.machines[i])
  {
  }

  lemma ExportKeepsCaller(env: Env, w: World, i: nat, reply: Reply, etag: Etag, took: bool)
    requires Lawful(env)
    requires i < |w.machines| && Possible(env, w, i, reply, etag, took)
    requires MachineInv(env, w.log, i, w.machines[i])
    requires w.machines[i].phase.Export?
    ensures var v := Answered(env, w, i, reply, etag, took); MachineInv(env, v.log, i, v.machines[i])
  {
    hide Lawful;
    CoverageIsReflexive(env, env.exportBundle(w.machines[i].brain));
  }

  lemma PutObjectKeepsCaller(env: Env, w: World, i: nat, reply: Reply, etag: Etag, took: bool)
    requires i < |w.machines| && Possible(env, w, i, reply, etag, took)
    requires MachineInv(env, w.log, i, w.machines[i])
    requires w.machines[i].phase.PutObject?
    ensures var v := Answered(env, w, i, reply, etag, took); MachineInv(env, v.log, i, v.machines[i])
  {
  }

  lemma DeleteKeepsCaller(env: Env, w: World, i: nat, reply: Reply, etag: Etag, took: bool)
    requires i < |w.machines| && Possible(env, w, i, reply, etag, took)
    requires MachineInv(env, w.log, i, w.machines[i])
    requires w.machines[i].phase.Discard? || w.machines[i].phase.DeleteSuperseded?
    ensures var v := Answered(env, w, i, reply, etag, took); MachineInv(env, v.log, i, v.machines[i])
  {
  }

  lemma CallKeepsCaller(env: Env, w: World, i: nat, reply: Reply, etag: Etag, took: bool)
    requires Lawful(env)
    requires i < |w.machines| && Possible(env, w, i, reply, etag, took)
    requires LogInv(env, w) && StoreInv(env, w) && MachineInv(env, w.log, i, w.machines[i])
    ensures var v := Answered(env, w, i, reply, etag, took); MachineInv(env, v.log, i, v.machines[i])
  {
    hide *;
    match w.machines[i].phase
    case ReadManifest(_) => ReadKeepsCaller(env, w, i, reply, etag, took);
    case FetchObject(_, _) => FetchKeepsCaller(env, w, i, reply, etag, took);
    case Import(_, _, _) => ImportKeepsCaller(env, w, i, reply, etag, took);
    case PersistMerged(_, _) => PersistMergedKeepsCaller(env, w, i, reply, etag, took);
    case Export(_, _) => ExportKeepsCaller(env, w, i, reply, etag, took);
    case PutObject(_, _, _, _) => PutObjectKeepsCaller(env, w, i, reply, etag, took);
    case PutManifest(_, _, _, _) => PutManifestKeepsCaller(env, w, i, reply, etag, took);
    case Discard(_, _) => DeleteKeepsCaller(env, w, i, reply, etag, took);
    case PersistPushed(_, _, _) => PersistPushedKeepsCaller(env, w, i, reply, etag, took);
    case DeleteSuperseded(_, _) => DeleteKeepsCaller(env, w, i, reply, etag, took);
    case Finished(_) => NothingIsImpossible(env, w, i, reply, etag, took);
  }

  lemma NothingIsImpossible(env: Env, w: World, i: nat, reply: Reply, etag: Etag, took: bool)
    requires i < |w.machines| && w.machines[i].phase.Finished?
    ensures !Possible(env, w, i, reply, etag, took)
  {
  }

  // ---------- Every step keeps the invariant ----------

  lemma CallKeepsInv(env: Env, w: World, i: nat, reply: Reply, etag: Etag, took: bool)
    requires Lawful(env) && Inv(env, w) && i < |w.machines| && Possible(env, w, i, reply, etag, took)
    ensures Inv(env, Answered(env, w, i, reply, etag, took))
  {
    var v := Answered(env, w, i, reply, etag, took);
    assert MachineInv(env, w.log, i, w.machines[i]) && HeldOk(env, w, w.machines[i].phase);
    hide Answered, Lawful;
    CallKeepsLog(env, w, i, reply, etag, took);
    CallKeepsStore(env, w, i, reply, etag, took);
    CallKeepsKeys(env, w, i, reply, etag, took);
    LogAfterCall(env, w, i, reply, etag, took);
    hide LogInv, StoreInv, KeysInv, MachineInv;
    forall j | 0 <= j < |v.machines|
      ensures MachineInv(env, v.log, j, v.machines[j])
    {
      assert MachineInv(env, w.log, j, w.machines[j]);
      if j == i {
        CallKeepsCaller(env, w, i, reply, etag, took);
      } else if w.machines[i].phase.PutManifest? && took {
        GrownLogKeepsMachine(env, w.log, NewEntry(env, w.machines[i].phase, etag, i), j, w.machines[j]);
      }
    }
  }

  lemma EditKeepsMachine(env: Env, log: seq<Entry>, i: nat, m: Machine, brain: Brain)
    requires MachineInv(env, log, i, m)
    requires forall t: string :: env.covers(env.exportBundle(m.brain), t) ==> env.covers(env.exportBundle(brain), t)
    ensures MachineInv(env, log, i, m.(brain := brain))
  {
  }

  lemma EditKeepsKeys(env: Env, w: World, i: nat, brain: Brain)
    requires KeysInv(env, w) && i < |w.machines|
    ensures KeysInv(env, SetMachine(w, i, w.machines[i].(brain := brain)))
  {
    var v := SetMachine(w, i, w.machines[i].(brain := brain));
    assert forall j :: 0 <= j < |v.machines| ==> v.machines[j].phase == w.machines[j].phase;
    assert forall j :: 0 <= j < |v.machines| ==> HeldOk(env, w, w.machines[j].phase);
  }

  lemma EditKeepsInv(env: Env, w: World, i: nat, brain: Brain)
    requires Lawful(env) && Inv(env, w) && Enabled(env, w, Edit(i, brain))
    ensures Inv(env, Next(env, w, Edit(i, brain)))
  {
    var v := Next(env, w, Edit(i, brain));
    EditKeepsKeys(env, w, i, brain);
    assert MachineInv(env, w.log, i, w.machines[i]);
    EditKeepsMachine(env, w.log, i, w.machines[i], brain);
    hide MachineInv, KeysInv;
    forall j | 0 <= j < |v.machines|
      ensures MachineInv(env, v.log, j, v.machines[j])
    {
      assert MachineInv(env, w.log, j, w.machines[j]);
    }
  }

  // A machine that stops holding a key changes nothing for the others.
  lemma LettingGoKeepsKeys(env: Env, w: World, i: nat, m: Machine)
    requires KeysInv(env, w) && i < |w.machines| && Held(m.phase) == {} && !m.phase.PutManifest?
    ensures KeysInv(env, SetMachine(w, i, m))
  {
    var v := SetMachine(w, i, m);
    forall j | 0 <= j < |v.machines|
      ensures HeldOk(env, v, v.machines[j].phase)
    {
      assert HeldOk(env, w, w.machines[j].phase);
    }
  }

  lemma StartOrCrashKeepsMachine(env: Env, w: World, a: Action)
    requires Enabled(env, w, a) && (a.StartOp? || a.Crash?)
    requires MachineInv(env, w.log, a.i, w.machines[a.i])
    ensures MachineInv(env, w.log, a.i, Next(env, w, a).machines[a.i])
  {
  }

  lemma StartOrCrashKeepsInv(env: Env, w: World, a: Action)
    requires Inv(env, w) && Enabled(env, w, a) && (a.StartOp? || a.Crash?)
    ensures Inv(env, Next(env, w, a))
  {
    var v := Next(env, w, a);
    LettingGoKeepsKeys(env, w, a.i, v.machines[a.i]);
    StartOrCrashKeepsMachine(env, w, a);
    hide MachineInv, KeysInv;
    forall j | 0 <= j < |v.machines|
      ensures MachineInv(env, v.log, j, v.machines[j])
    {
      assert MachineInv(env, w.log, j, w.machines[j]);
    }
  }

  lemma LateDeleteKeepsInv(env: Env, w: World, k: ObjectKey)
    requires Lawful(env) && Inv(env, w) && Enabled(env, w, LateDelete(k))
    ensures Inv(env, Next(env, w, LateDelete(k)))
  {
    var v := Next(env, w, LateDelete(k));
    forall j | 0 <= j < |v.machines|
      ensures HeldOk(env, v, v.machines[j].phase)
    {
      assert HeldOk(env, w, w.machines[j].phase);
    }
  }

  lemma StepKeepsInv(env: Env, w: World, a: Action)
    requires Lawful(env) && Inv(env, w) && Enabled(env, w, a)
    ensures Inv(env, Next(env, w, a))
  {
    match a
    case StartOp(_, _) => StartOrCrashKeepsInv(env, w, a);
    case Call(i, reply, etag, took) => CallKeepsInv(env, w, i, reply, etag, took);
    case Crash(_) => StartOrCrashKeepsInv(env, w, a);
    case Edit(i, brain) => EditKeepsInv(env, w, i, brain);
    case LateDelete(k) => LateDeleteKeepsInv(env, w, k);
  }

  lemma {:induction false} RunKeepsInv(env: Env, w: World, run: seq<Action>)
    requires Lawful(env) && Inv(env, w) && CanRun(env, w, run)
    ensures Inv(env, After(env, w, run))
    decreases |run|
  {
    if run != [] {
      StepKeepsInv(env, w, run[0]);
      RunKeepsInv(env, Next(env, w, run[0]), run[1..]);
    }
  }

  // ---------- Main results ----------

  ghost predicate Reachable(env: Env, w: World) {
    exists w0: World, run: seq<Action> :: Initial(w0) && CanRun(env, w0, run) && After(env, w0, run) == w
  }

  lemma ReachableInv(env: Env, w: World)
    requires Lawful(env) && Reachable(env, w)
    ensures Inv(env, w)
  {
    var w0: World, run: seq<Action> :| Initial(w0) && CanRun(env, w0, run) && After(env, w0, run) == w;
    InitialInv(env, w0);
    RunKeepsInv(env, w0, run);
  }

  // The manifest opens, and the object it names is there, opens under its own key, and hashes right.
  ghost predicate RemoteReadable(env: Env, w: World) {
    w.register.Some? ==>
      var m := OpenManifest(env, w.register.value.0);
      && m.Ok?
      && m.value.objectKey in w.objects
      && OpenBundle(env, m.value, w.objects[m.value.objectKey]).Ok?
  }

  /** Whatever was deleted, however late, the remote can be read in every reachable state. */
  lemma RemoteIsAlwaysReadable(env: Env, w: World)
    requires Lawful(env) && Reachable(env, w)
    ensures RemoteReadable(env, w)
  {
    ReachableInv(env, w);
  }

  function RemoteGeneration(env: Env, w: World): nat {
    if w.register.None? then 0
    else match OpenManifest(env, w.register.value.0)
         case Ok(m) => m.generation
         case Err(_) => 0
  }

  // The text of the bundle the manifest names.
  function RemoteBundle(env: Env, w: World): Option<string> {
    if w.register.None? then None
    else match OpenManifest(env, w.register.value.0)
         case Err(_) => None
         case Ok(m) =>
           if m.objectKey in w.objects then
             match OpenBundle(env, m, w.objects[m.objectKey])
             case Ok(text) => Some(text)
             case Err(_) => None
           else None
  }

  lemma RemoteIsLast(env: Env, w: World)
    requires Lawful(env) && Inv(env, w)
    ensures RemoteGeneration(env, w) == |w.log|
    ensures RemoteBundle(env, w) == if w.log == [] then None else Some(Last(w).text)
  {
  }

  /** A step leaves the manifest alone or raises its generation by exactly one, to a bundle that
      covers the one it replaces. */
  lemma EveryWriteIsTheNextGeneration(env: Env, w: World, a: Action)
    requires Lawful(env) && Reachable(env, w) && Enabled(env, w, a)
    ensures var v := Next(env, w, a);
      || v.register == w.register
      || (&& RemoteGeneration(env, v) == RemoteGeneration(env, w) + 1
          && RemoteBundle(env, v).Some?
          && (RemoteBundle(env, w).Some? ==>
                env.covers(RemoteBundle(env, v).value, RemoteBundle(env, w).value)))
  {
    hide RemoteGeneration, RemoteBundle;
    ReachableInv(env, w);
    StepKeepsInv(env, w, a);
    RemoteIsLast(env, w);
    RemoteIsLast(env, Next(env, w, a));
    if a.Call? {
      LogAfterCall(env, w, a.i, a.reply, a.etag, a.took);
      CallWritesOrNot(env, w, a.i, a.reply, a.etag, a.took);
    } else {
      OnlyCallsWrite(env, w, a);
    }
    hide Answered, Possible, StoreInv, KeysInv, MachineInv, Reachable, Lawful, Enabled;
  }

  lemma OnlyCallsWrite(env: Env, w: World, a: Action)
    requires Enabled(env, w, a) && !a.Call?
    ensures Next(env, w, a).register == w.register
  {
  }

  lemma CallWritesOrNot(env: Env, w: World, i: nat, reply: Reply, etag: Etag, took: bool)
    requires i < |w.machines| && Possible(env, w, i, reply, etag, took)
    ensures !(w.machines[i].phase.PutManifest? && took) ==> Answered(env, w, i, reply, etag, took).register == w.register
  {
  }

  lemma {:induction false} LogOnlyGrows(env: Env, w: World, run: seq<Action>)
    requires Lawful(env) && Inv(env, w) && CanRun(env, w, run)
    ensures w.log <= After(env, w, run).log
    decreases |run|
  {
    if run != [] {
      StepKeepsInv(env, w, run[0]);
      if run[0].Call? {
        LogAfterCall(env, w, run[0].i, run[0].reply, run[0].etag, run[0].took);
      }
      LogOnlyGrows(env, Next(env, w, run[0]), run[1..]);
    }
  }

  /** Nothing that was ever published is lost: later bundles cover all earlier ones. */
  lemma LaterBundlesCoverEarlierOnes(env: Env, w: World, run: seq<Action>)
    requires Lawful(env) && Reachable(env, w) && CanRun(env, w, run)
    requires RemoteBundle(env, w).Some?
    ensures var v := After(env, w, run);
      && RemoteGeneration(env, w) <= RemoteGeneration(env, v)
      && RemoteBundle(env, v).Some?
      && env.covers(RemoteBundle(env, v).value, RemoteBundle(env, w).value)
  {
    ReachableInv(env, w);
    RunKeepsInv(env, w, run);
    LogOnlyGrows(env, w, run);
    var v := After(env, w, run);
    RemoteIsLast(env, w);
    RemoteIsLast(env, v);
    var n := |w.log| - 1;
    assert v.log[n] == Last(w);
    if n < |v.log| - 1 {
      assert env.covers(v.log[|v.log| - 1].text, v.log[n].text);
    }
  }

  /** With honest machines a sync fails only by a broken call, a superseded pull or a conflict:
      never as rollback, wrong key, undecryptable object or hash mismatch. */
  lemma NoFalseAlarms(env: Env, w: World, i: nat)
    requires Lawful(env) && Reachable(env, w) && i < |w.machines|
    ensures w.machines[i].phase.Finished? && w.machines[i].phase.outcome.Failed? ==>
      w.machines[i].phase.outcome.error in {ObjectMissing, SyncConflict, TransportError}
  {
    ReachableInv(env, w);
    assert MachineInv(env, w.log, i, w.machines[i]);
  }

  /** A sync that reports generation g leaves a machine whose export covers bundle g, and last-seen
      never claims more than the machine holds. */
  lemma ReportedGenerationIsHeld(env: Env, w: World, i: nat)
    requires Lawful(env) && Reachable(env, w) && i < |w.machines|
    ensures Covers(env, w.log, w.machines[i].brain, w.machines[i].lastSeen)
    ensures w.machines[i].phase.Finished? ==>
      match w.machines[i].phase.outcome
      case UpToDate(g, _) => 0 < g <= RemoteGeneration(env, w) && Covers(env, w.log, w.machines[i].brain, g)
      case Merged(g) => 0 < g <= RemoteGeneration(env, w) && Covers(env, w.log, w.machines[i].brain, g)
      case Pushed(g, _) => 0 < g <= RemoteGeneration(env, w) && Covers(env, w.log, w.machines[i].brain, g)
      case _ => true
  {
    ReachableInv(env, w);
    RemoteIsLast(env, w);
    assert MachineInv(env, w.log, i, w.machines[i]);
  }

  predicate StartsAgain(run: seq<Action>, i: nat) {
    exists n :: 0 <= n < |run| && run[n].StartOp? && run[n].i == i
  }

  lemma {:induction false} StartIsRemembered(env: Env, w: World, run: seq<Action>, i: nat)
    requires CanRun(env, w, run) && i < |w.machines| && !StartsAgain(run, i)
    ensures |After(env, w, run).machines| == |w.machines|
    ensures After(env, w, run).machines[i].start == w.machines[i].start
    decreases |run|
  {
    if run != [] {
      assert !(run[0].StartOp? && run[0].i == i);
      forall n | 0 <= n < |run[1..]|
        ensures !(run[1..][n].StartOp? && run[1..][n].i == i)
      {
        assert run[1..][n] == run[n + 1];
      }
      StartIsRemembered(env, Next(env, w, run[0]), run[1..], i);
    }
  }

  /** A push that ends in sync_conflict has seen the generation rise by at least three since it
      began, and none of those writes was its own. */
  lemma ConflictMeansThreeForeignWrites(env: Env, w: World, i: nat, rest: seq<Action>)
    requires Lawful(env) && Reachable(env, w)
    requires CanRun(env, w, [StartOp(i, Push)] + rest) && !StartsAgain(rest, i)
    ensures i < |w.machines|
    ensures var v := After(env, w, [StartOp(i, Push)] + rest);
      i < |v.machines| && v.machines[i].phase == Finished(Failed(SyncConflict)) ==>
        && RemoteGeneration(env, v) >= RemoteGeneration(env, w) + 3
        && forall n :: RemoteGeneration(env, w) <= n < |v.log| ==> v.log[n].author != i
  {
    var run := [StartOp(i, Push)] + rest;
    var w1 := Next(env, w, run[0]);
    assert run[1..] == rest;
    ReachableInv(env, w);
    StepKeepsInv(env, w, run[0]);
    RunKeepsInv(env, w1, rest);
    StartIsRemembered(env, w1, rest, i);
    var v := After(env, w1, rest);
    RemoteIsLast(env, w);
    RemoteIsLast(env, v);
    assert MachineInv(env, v.log, i, v.machines[i]);
  }
}
