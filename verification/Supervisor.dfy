/** Running an agent's queue (agent-office/src/supervisor.ts). */
module Supervisor {
  import opened Prelude
  import opened AgentOffice

  datatype Outcome = Nothing | Rejected | Settled(task: Task)

  predicate Runnable(status: AgentStatus) {
    status == Idle || status == Working
  }

  // The earliest queued task of an agent; among equals, any.
  ghost predicate IsNext(tasks: map<int, Task>, agentId: int, id: int) {
    && id in QueuedOf(tasks, agentId)
    && forall other :: other in QueuedOf(tasks, agentId) ==> tasks[id].queuedAt <= tasks[other].queuedAt
  }

  method EarliestOf(tasks: map<int, Task>, queued: set<int>) returns (first: int)
    requires queued != {} && queued <= tasks.Keys
    ensures first in queued && forall other :: other in queued ==> tasks[first].queuedAt <= tasks[other].queuedAt
  {
    ghost var _ := SomeMember(queued);
    first :| first in queued;
    var rest := queued - {first};
    while rest != {}
      invariant first in queued && rest <= queued
      invariant forall other :: other in queued && other !in rest ==> tasks[first].queuedAt <= tasks[other].queuedAt
      decreases rest
    {
      ghost var _ := SomeMember(rest);
      var other :| other in rest;
      rest := rest - {other};
      if tasks[other].queuedAt < tasks[first].queuedAt {
        first := other;
      }
    }
  }

  // ---------- What a call leaves behind ----------

  ghost predicate Grew<T(!new)>(before: seq<T>, after: seq<T>) {
    |before| <= |after| && after[..|before|] == before
  }

  // Only the named entry may differ.
  ghost predicate OnlyAt<V(!new)>(before: map<int, V>, after: map<int, V>, id: int) {
    after.Keys == before.Keys && forall other :: other in before && other != id ==> after[other] == before[other]
  }

  // Set to `working` first and then to one of `ends` at least once: the last attempt that landed is what shows.
  ghost predicate SettledBy<S(!new)>(tries: seq<Try<S>>, id: int, working: S, ends: set<S>, now: S) {
    && 2 <= |tries| && tries[0] == Try(id, working, true)
    && (forall k :: 0 < k < |tries| ==> tries[k].id == id && tries[k].status in ends)
    && exists k :: 0 <= k < |tries| && tries[k].landed && tries[k].status == now && AllLostAfter(tries, k)
  }

  ghost predicate AllLostAfter<S(!new)>(tries: seq<Try<S>>, k: nat) {
    forall j :: k < j < |tries| ==> !tries[j].landed
  }

  /** Nothing stays `working` unless every attempt to settle it failed. */
  lemma StuckIffAllLost<S(!new)>(tries: seq<Try<S>>, id: int, working: S, ends: set<S>, now: S)
    requires SettledBy(tries, id, working, ends, now) && working !in ends
    ensures now == working <==> AllLostAfter(tries, 0)
    ensures now == working || now in ends
    ensures tries[|tries| - 1].landed ==> now == tries[|tries| - 1].status
  {
    var k :| 0 <= k < |tries| && tries[k].landed && tries[k].status == now && AllLostAfter(tries, k);
    if k == |tries| - 1 || now == working {
    } else {
      assert !tries[|tries| - 1].landed;
    }
  }

  const AgentEnds := {Idle, InError}
  const TaskEnds := {Done, Failed}

  // ---------- One task ----------

  // How far a run got: what the cleanup has to undo.
  datatype Progress = Progress(session: Option<string>, ended: bool, spawnAudited: bool)

  predicate IsTerminal(row: AuditRow, taskId: int, session: string) {
    row.kind != Spawn && row.taskId == taskId && row.session == session
  }

  // A session this call opened is closed, or the attempt to close it failed.
  ghost predicate SessionsClosed(before: map<string, bool>, after: map<string, bool>, lost: seq<Lost>) {
    forall s :: s in after && s !in before && after[s] ==> LostEnd(s) in lost
  }

  // A spawn on record has a terminal row, or the attempt to write one failed.
  ghost predicate SpawnsClosed(before: seq<AuditRow>, after: seq<AuditRow>, lost: seq<Lost>) {
    forall i :: |before| <= i < |after| && after[i].kind == Spawn ==>
      || (exists j :: i < j < |after| && IsTerminal(after[j], after[i].taskId, after[i].session))
      || (exists k :: 0 <= k < |lost| && lost[k].LostAudit? && IsTerminal(lost[k].row, after[i].taskId, after[i].session))
  }

  // What a stage did to the sessions and the audit, by how far it got.
  ghost predicate SessionsShow(before: map<string, bool>, after: map<string, bool>, p: Progress) {
    match p.session
    case None => after == before
    case Some(s) => s !in before && after == before[s := !p.ended]
  }

  ghost predicate SpawnOnRecord(audit: seq<AuditRow>, n: nat, agentId: int, taskId: int, session: string) {
    && n < |audit| && audit[n].kind == Spawn && audit[n].agentId == agentId
    && audit[n].taskId == taskId && audit[n].session == session
  }

  ghost predicate AuditShows(before: seq<AuditRow>, after: seq<AuditRow>, agentId: int, taskId: int, p: Progress) {
    && Grew(before, after)
    && |after| == |before| + (if p.spawnAudited then 1 else 0)
    && (p.spawnAudited ==> p.session.Some? && SpawnOnRecord(after, |before|, agentId, taskId, p.session.value))
  }

  // The calls of a run, counted from its first: a session id is drawn, the session created, unless the agent has one a
  // Claude session id is drawn, the spawn is recorded, and then the process is launched.
  function LaunchCall(agent: Agent, n: nat): nat {
    if agent.claudeSessionId.Some? then n + 3 else n + 4
  }

  // The process was started and has ended: the drawn session id was free, and no call up to there failed.
  predicate ProcessEnds(fails: nat -> bool, newIds: nat -> string, sessions: map<string, bool>, agent: Agent, n: nat) {
    var launch := LaunchCall(agent, n);
    newIds(n) !in sessions && !fails(n + 1) && !fails(launch - 1) && !fails(launch)
  }

  // Neither did the four that settle: the end of the session, the two saves, the terminal row.
  predicate RunSucceeds(fails: nat -> bool, newIds: nat -> string, sessions: map<string, bool>, agent: Agent, n: nat) {
    var launch := LaunchCall(agent, n);
    && ProcessEnds(fails, newIds, sessions, agent, n)
    && !fails(launch + 1) && !fails(launch + 2) && !fails(launch + 3) && !fails(launch + 4)
  }

  function ClaudeIdOf(agent: Agent, newIds: nat -> string, n: nat): string {
    agent.claudeSessionId.GetOr(newIds(n + 2))
  }

  method StartProcess(o: Office, agent: Agent, task: Task, allowFull: bool)
    returns (exit: Option<Exit>, progress: Progress)
    requires agent.id in o.agents && o.agents[agent.id] == agent && agent.status == Working
    requires task.id in o.tasks && o.tasks[task.id] == task && task.status == Running && task.agentId == agent.id
    requires agent.roleId in o.roles && (o.roles[agent.roleId] == Full ==> allowFull)
    modifies o`calls, o`sessions, o`audit, o`lost, o`launched
    ensures SessionsShow(old(o.sessions), o.sessions, progress) && !progress.ended
    ensures AuditShows(old(o.audit), o.audit, agent.id, task.id, progress)
    ensures Grew(old(o.lost), o.lost)
    ensures o.launched == old(o.launched) + if progress.spawnAudited then [task.id] else []
    ensures exit.Some? ==> progress.spawnAudited
    // The exit is the process's own.
    ensures exit == if ProcessEnds(o.fails, o.newIds, old(o.sessions), agent, old(o.calls))
                    then Some(o.exits(LaunchCall(agent, old(o.calls)))) else None
    ensures exit.Some? ==>
      && progress.session == Some(o.newIds(old(o.calls))) && o.calls == LaunchCall(agent, old(o.calls)) + 1
      && o.audit == old(o.audit) + [AuditRow(Spawn, agent.id, task.id, progress.session.value,
                                             ClaudeIdOf(agent, o.newIds, old(o.calls)))]
    ensures progress.spawnAudited && agent.claudeSessionId.Some? ==>
      o.audit[|old(o.audit)|].claudeSessionId == agent.claudeSessionId.value
  {
    hide OnlyAt, IsTerminal;
    progress := Progress(None, false, false);
    exit := None;
    var session := o.NewId();
    var ok := o.CreateSession(session);
    if !ok {
      return;
    }
    progress := progress.(session := Some(session));
    ok := RecordSpawn(o, agent, task, session);
    if !ok {
      return;
    }
    progress := progress.(spawnAudited := true);
    exit := o.Launch(agent.id, task.id, session, allowFull);
  }

  // Steps 6 and 7: the agent's Claude session, resumed or new, goes on record.
  method RecordSpawn(o: Office, agent: Agent, task: Task, session: string) returns (ok: bool)
    modifies o`calls, o`audit, o`lost
    ensures o.calls == old(o.calls) + (if agent.claudeSessionId.Some? then 1 else 2) && ok == !o.fails(o.calls - 1)
    ensures Grew(old(o.lost), o.lost)
    ensures o.audit == old(o.audit) + if ok then
        [AuditRow(Spawn, agent.id, task.id, session, agent.claudeSessionId.GetOr(o.newIds(old(o.calls))))] else []
    ensures ok ==> SpawnOnRecord(o.audit, |old(o.audit)|, agent.id, task.id, session)
  {
    var claude;
    if agent.claudeSessionId.Some? {
      claude := agent.claudeSessionId.value;
    } else {
      claude := o.NewId();
    }
    ok := o.AppendAudit(AuditRow(Spawn, agent.id, task.id, session, claude));
  }

  // One attempt at most to settle each of the task and the agent; nothing else of theirs changes.
  ghost predicate TaskShows(before: map<int, Task>, after: map<int, Task>, task: Task, tt: seq<Try<TaskStatus>>) {
    && |tt| <= 1 && OnlyAt(before, after, task.id) && task.id in after
    && (tt == [] ==> after == before)
    && (tt != [] ==>
          && tt[0].id == task.id && tt[0].status in TaskEnds
          && after[task.id] == if tt[0].landed then task.(status := tt[0].status, exitCode := after[task.id].exitCode)
                               else task)
  }

  ghost predicate AgentShows(before: map<int, Agent>, after: map<int, Agent>, agent: Agent, at: seq<Try<AgentStatus>>) {
    && |at| <= 1 && OnlyAt(before, after, agent.id) && agent.id in after
    && (at == [] ==> after == before)
    && (at != [] ==>
          && at[0].id == agent.id && at[0].status in AgentEnds
          && after[agent.id] == if at[0].landed then
               agent.(status := at[0].status, claudeSessionId := after[agent.id].claudeSessionId) else agent)
  }

  method SettleExit(o: Office, agent: Agent, task: Task, session: string, exit: Exit)
    returns (settled: Option<Task>, ended: bool, ghost at: seq<Try<AgentStatus>>, ghost tt: seq<Try<TaskStatus>>)
    requires o.Valid()
    requires agent.id in o.agents && o.agents[agent.id] == agent && agent.status == Working
    requires task.id in o.tasks && o.tasks[task.id] == task && task.status == Running && task.agentId == agent.id
    requires session in o.sessions && o.sessions[session]
    modifies o`calls, o`sessions, o`audit, o`lost, o`tasks, o`taskTries, o`agents, o`agentTries
    ensures o.Valid()
    ensures o.sessions == old(o.sessions)[session := !ended]
    ensures o.agentTries == old(o.agentTries) + at && o.taskTries == old(o.taskTries) + tt
    ensures TaskShows(old(o.tasks), o.tasks, task, tt) && AgentShows(old(o.agents), o.agents, agent, at)
    // The process's own session id is kept whether it succeeded or not, so that a retry can resume it.
    ensures at != [] && at[0].landed ==> o.agents[agent.id].claudeSessionId == Some(exit.claudeSessionId)
    ensures tt != [] && tt[0].landed ==> o.tasks[task.id].exitCode == exit.code
    // The session ends before the task is saved, the task before the agent.
    ensures (tt != [] <==> ended) && (at != [] <==> tt != [] && tt[0].landed)
    ensures Grew(old(o.lost), o.lost)
    ensures settled == None ==> o.audit == old(o.audit)
    ensures settled.Some? <==>
      !o.fails(old(o.calls)) && !o.fails(old(o.calls) + 1) && !o.fails(old(o.calls) + 2) && !o.fails(old(o.calls) + 3)
    ensures settled.Some? ==>
      && ended && o.tasks[task.id] == settled.value
      && at != [] && at[0].landed && tt != [] && tt[0].landed
      && settled.value.exitCode == exit.code
      && settled.value.status == (if exit.code == Some(0) then Done else Failed)
      && at[0].status == (if exit.code == Some(0) then Idle else InError)
      && o.audit == old(o.audit) + [AuditRow(if exit.code == Some(0) then TaskDone else TaskFailed,
                                             agent.id, task.id, session, exit.claudeSessionId)]
  {
    at, tt, settled, ended := [], [], None, false;
    var ok := o.EndSession(session);
    if !ok {
      return;
    }
    ended := true;
    var success := exit.code == Some(0);
    var settledTask := task.(status := if success then Done else Failed, exitCode := exit.code);
    ok := o.SaveTask(settledTask);
    tt := [Try(task.id, settledTask.status, ok)];
    if !ok {
      return;
    }
    var settledAgent := agent.(status := if success then Idle else InError, claudeSessionId := Some(exit.claudeSessionId));
    ok := o.SaveAgent(settledAgent);
    at := [Try(agent.id, settledAgent.status, ok)];
    if !ok {
      return;
    }
    ok := o.AppendAudit(AuditRow(if success then TaskDone else TaskFailed, agent.id, task.id, session, exit.claudeSessionId));
    if ok {
      settled := Some(settledTask);
    }
  }

  function FailedRow(agent: Agent, task: Task, p: Progress): AuditRow {
    AuditRow(TaskFailed, agent.id, task.id, p.session.GetOr(""), agent.claudeSessionId.GetOr("unknown"))
  }

  ghost predicate EndTried(before: map<string, bool>, after: map<string, bool>, p: Progress, lost: seq<Lost>) {
    if p.session.Some? && !p.ended then
      after == before[p.session.value := false] || (after == before && LostEnd(p.session.value) in lost)
    else after == before
  }

  ghost predicate RowTried(before: seq<AuditRow>, after: seq<AuditRow>, p: Progress, row: AuditRow, lost: seq<Lost>) {
    if p.spawnAudited then after == before + [row] || (after == before && LostAudit(row) in lost)
    else after == before
  }

  lemma TriedRowClosesSpawn(before: seq<AuditRow>, between: seq<AuditRow>, after: seq<AuditRow>, agentId: int, taskId: int,
                            p: Progress, row: AuditRow, lost: seq<Lost>)
    requires AuditShows(before, between, agentId, taskId, p) && RowTried(between, after, p, row, lost)
    requires p.spawnAudited ==> IsTerminal(row, taskId, p.session.value)
    ensures SpawnsClosed(before, after, lost) && Grew(before, after)
  {
    if p.spawnAudited && after == between + [row] {
      assert after[|before| + 1] == row;
      assert forall i :: 0 <= i < |between| ==> after[i] == between[i];
    }
  }

  // Best-effort cleanup: every write is attempted, the agent's first, whatever the others do.
  method CleanUp(o: Office, agent: Agent, task: Task, progress: Progress)
    returns (failedTask: Task, ghost agentLanded: bool, ghost taskLanded: bool)
    requires o.Valid()
    requires progress.spawnAudited ==> progress.session.Some?
    modifies o`calls, o`sessions, o`audit, o`lost, o`tasks, o`taskTries, o`agents, o`agentTries
    ensures o.Valid() && failedTask == task.(status := Failed)
    ensures o.agentTries == old(o.agentTries) + [Try(agent.id, InError, agentLanded)]
    ensures o.taskTries == old(o.taskTries) + [Try(task.id, Failed, taskLanded)]
    ensures o.agents == if agentLanded then old(o.agents)[agent.id := agent.(status := InError)] else old(o.agents)
    ensures o.tasks == if taskLanded then old(o.tasks)[task.id := failedTask] else old(o.tasks)
    // The agent's write is the first call, the task's the second.
    ensures agentLanded == !o.fails(old(o.calls)) && taskLanded == !o.fails(old(o.calls) + 1)
    ensures Grew(old(o.lost), o.lost)
    ensures EndTried(old(o.sessions), o.sessions, progress, o.lost)
    ensures RowTried(old(o.audit), o.audit, progress, FailedRow(agent, task, progress), o.lost)
  {
    failedTask := task.(status := Failed);
    agentLanded := o.SaveAgent(agent.(status := InError));
    taskLanded := o.SaveTask(failedTask);
    if progress.session.Some? && !progress.ended {
      var ok := o.EndSession(progress.session.value);
      assert !ok ==> o.lost[|o.lost| - 1] == LostEnd(progress.session.value);
    }
    if progress.spawnAudited && progress.session.Some? {
      var row := FailedRow(agent, task, progress);
      var ok := o.AppendAudit(row);
      assert !ok ==> o.lost[|o.lost| - 1] == LostAudit(row);
    }
  }

  lemma SettledOnce<S(!new)>(id: int, working: S, ends: set<S>, last: Try<S>, now: S)
    requires last.id == id && last.status in ends && now == if last.landed then last.status else working
    ensures SettledBy([Try(id, working, true)] + [last], id, working, ends, now)
  {
    var tries := [Try(id, working, true)] + [last];
    var k := if last.landed then 1 else 0;
    assert tries[1] == last && tries[k].landed && AllLostAfter(tries, k);
  }

  lemma SettledTwice<S(!new)>(id: int, working: S, ends: set<S>, first: Try<S>, last: Try<S>, now: S)
    requires first.id == id && first.status in ends && last.id == id && last.status in ends
    requires now == if last.landed then last.status else if first.landed then first.status else working
    ensures SettledBy([Try(id, working, true)] + ([first] + [last]), id, working, ends, now)
  {
    var tries := [Try(id, working, true)] + ([first] + [last]);
    var k := if last.landed then 2 else if first.landed then 1 else 0;
    assert tries[1] == first && tries[2] == last && tries[k].landed && AllLostAfter(tries, k);
  }

  // Whatever was tried before, the cleanup's own attempt comes last.
  lemma SettledAtLast<S(!new)>(id: int, working: S, ends: set<S>, earlier: seq<Try<S>>, last: Try<S>, between: S, now: S)
    requires |earlier| <= 1 && last.id == id && last.status in ends
    requires between == if earlier != [] && earlier[0].landed then earlier[0].status else working
    requires earlier != [] ==> earlier[0].id == id && earlier[0].status in ends
    requires now == if last.landed then last.status else between
    ensures SettledBy([Try(id, working, true)] + (earlier + [last]), id, working, ends, now)
  {
    if earlier == [] {
      assert earlier + [last] == [last];
      SettledOnce(id, working, ends, last, now);
    } else {
      assert earlier == [earlier[0]];
      SettledTwice(id, working, ends, earlier[0], last, now);
    }
  }

  // The task and the agent settled, in the stores and in what is returned.
  ghost predicate Settlement(task: Task, agentId: int, before: Task, after: Task, agentStatus: AgentStatus,
                             at: seq<Try<AgentStatus>>, tt: seq<Try<TaskStatus>>) {
    && task == before.(status := task.status, exitCode := task.exitCode)
    && after == before.(status := after.status, exitCode := after.exitCode)
    && SettledBy(at, agentId, Working, AgentEnds, agentStatus) && SettledBy(tt, task.id, Running, TaskEnds, after.status)
    && (task.status == Done ==> task.exitCode == Some(0) && after == task && agentStatus == Idle)
    && (task.status == Failed ==> at[|at| - 1].status == InError && tt[|tt| - 1].status == Failed)
    && (task.status == Done || task.status == Failed)
  }

  lemma ExitSettles(settled: Task, agent: Agent, task: Task, agents: map<int, Agent>, agents': map<int, Agent>,
                    tasks: map<int, Task>, tasks': map<int, Task>, at: seq<Try<AgentStatus>>, tt: seq<Try<TaskStatus>>)
    requires TaskShows(tasks, tasks', task, tt) && AgentShows(agents, agents', agent, at)
    requires at != [] && at[0].landed && tt != [] && tt[0].landed
    requires tasks'[task.id] == settled && task.status == Running
    requires settled.status == if settled.exitCode == Some(0) then Done else Failed
    requires at[0].status == if settled.exitCode == Some(0) then Idle else InError
    ensures Settlement(settled, agent.id, task, tasks'[task.id], agents'[agent.id].status,
                       [Try(agent.id, Working, true)] + at, [Try(task.id, Running, true)] + tt)
  {
    assert at == [at[0]] && tt == [tt[0]];
    SettledOnce(agent.id, Working, AgentEnds, at[0], agents'[agent.id].status);
    SettledOnce(task.id, Running, TaskEnds, tt[0], tasks'[task.id].status);
    hide SettledBy;
  }

  datatype Books = Books(agents: map<int, Agent>, tasks: map<int, Task>, sessions: map<string, bool>, audit: seq<AuditRow>)

  ghost function BooksOf(o: Office): Books
    reads o
  {
    Books(o.agents, o.tasks, o.sessions, o.audit)
  }

  // The books after a run whose process ended as `exit`: done and idle for code zero, failed and in error otherwise.
  ghost predicate Closes(b: Books, b': Books, agent: Agent, task: Task, settled: Task, exit: Exit, session: string,
                         claude: string) {
    var ok := exit.code == Some(0);
    && settled == task.(status := if ok then Done else Failed, exitCode := exit.code)
    && b'.tasks == b.tasks[task.id := settled]
    && b'.agents == b.agents[agent.id := agent.(status := if ok then Idle else InError,
                                                 claudeSessionId := Some(exit.claudeSessionId))]
    && b'.sessions == b.sessions[session := false]
    && b'.audit == b.audit + [AuditRow(Spawn, agent.id, task.id, session, claude)]
         + [AuditRow(if ok then TaskDone else TaskFailed, agent.id, task.id, session, exit.claudeSessionId)]
  }

  // What the run's calls, from the n-th on, make of the books when none of them fails.
  ghost predicate RunCloses(o: Office, b: Books, b': Books, agent: Agent, task: Task, settled: Task, n: nat) {
    Closes(b, b', agent, task, settled, o.exits(LaunchCall(agent, n)), o.newIds(n), ClaudeIdOf(agent, o.newIds, n))
  }

  // Steps 5 to 9: nothing when any call on the way failed.
  method AttemptRun(o: Office, agent: Agent, task: Task, allowFull: bool)
    returns (settled: Option<Task>, progress: Progress, ghost at: seq<Try<AgentStatus>>, ghost tt: seq<Try<TaskStatus>>)
    requires o.Valid()
    requires agent.id in o.agents && o.agents[agent.id] == agent && agent.status == Working
    requires task.id in o.tasks && o.tasks[task.id] == task && task.status == Running && task.agentId == agent.id
    requires agent.roleId in o.roles && (o.roles[agent.roleId] == Full ==> allowFull)
    modifies o`calls, o`sessions, o`audit, o`lost, o`tasks, o`taskTries, o`agents, o`agentTries, o`launched
    ensures o.Valid()
    ensures o.agentTries == old(o.agentTries) + at && o.taskTries == old(o.taskTries) + tt
    ensures TaskShows(old(o.tasks), o.tasks, task, tt) && AgentShows(old(o.agents), o.agents, agent, at)
    ensures SessionsShow(old(o.sessions), o.sessions, progress)
    ensures progress.spawnAudited ==> progress.session.Some?
    ensures Grew(old(o.lost), o.lost)
    ensures o.launched == old(o.launched) || o.launched == old(o.launched) + [task.id]
    ensures settled == None ==> AuditShows(old(o.audit), o.audit, agent.id, task.id, progress)
    ensures settled.Some? <==> RunSucceeds(o.fails, o.newIds, old(o.sessions), agent, old(o.calls))
    ensures settled.Some? ==> RunCloses(o, old(BooksOf(o)), BooksOf(o), agent, task, settled.value, old(o.calls))
    ensures settled.Some? ==>
      && progress.ended && o.launched == old(o.launched) + [task.id]
      && SpawnsClosed(old(o.audit), o.audit, o.lost) && Grew(old(o.audit), o.audit)
      && Settlement(settled.value, agent.id, task, o.tasks[task.id], o.agents[agent.id].status,
                    [Try(agent.id, Working, true)] + at, [Try(task.id, Running, true)] + tt)
  {
    hide Settlement, SpawnsClosed, OnlyAt, ProcessEnds, RunSucceeds, RunCloses, ClaudeIdOf, LaunchCall, TaskShows, AgentShows;
    NothingShows(o, agent, task);
    SucceedsIff(o, o.sessions, agent, o.calls);
    var exit;
    exit, progress := StartProcess(o, agent, task, allowFull);
    at, tt, settled := [], [], None;
    if exit.Some? {
      ghost var started := o.audit;
      var ended;
      settled, ended, at, tt := SettleExit(o, agent, task, progress.session.value, exit.value);
      progress := progress.(ended := ended);
      if settled.Some? {
        ExitSettles(settled.value, agent, task, old(o.agents), o.agents, old(o.tasks), o.tasks, at, tt);
        TriedRowClosesSpawn(old(o.audit), started, o.audit, agent.id, task.id, progress, o.audit[|started|], o.lost);
        ExitCloses(o, old(BooksOf(o)), BooksOf(o), agent, task, settled.value, old(o.calls), at, tt);
      }
    }
  }

  lemma NothingShows(o: Office, agent: Agent, task: Task)
    requires agent.id in o.agents && task.id in o.tasks
    ensures TaskShows(o.tasks, o.tasks, task, []) && AgentShows(o.agents, o.agents, agent, [])
  {
  }

  lemma SucceedsIff(o: Office, sessions: map<string, bool>, agent: Agent, n: nat)
    ensures var settle := LaunchCall(agent, n) + 1;
      RunSucceeds(o.fails, o.newIds, sessions, agent, n) <==>
        && ProcessEnds(o.fails, o.newIds, sessions, agent, n)
        && !o.fails(settle) && !o.fails(settle + 1) && !o.fails(settle + 2) && !o.fails(settle + 3)
  {
  }

  lemma ExitCloses(o: Office, b: Books, b': Books, agent: Agent, task: Task, settled: Task, n: nat,
                   at: seq<Try<AgentStatus>>, tt: seq<Try<TaskStatus>>)
    requires agent.id in b.agents && b.agents[agent.id] == agent && task.id in b.tasks && b.tasks[task.id] == task
    requires TaskShows(b.tasks, b'.tasks, task, tt) && AgentShows(b.agents, b'.agents, agent, at)
    requires at != [] && at[0].landed && tt != [] && tt[0].landed
    requires task.id in b'.tasks && b'.tasks[task.id] == settled && agent.id in b'.agents
    requires var exit := o.exits(LaunchCall(agent, n));
      && settled.exitCode == exit.code && settled.status == (if exit.code == Some(0) then Done else Failed)
      && at[0].status == (if exit.code == Some(0) then Idle else InError)
      && b'.agents[agent.id].claudeSessionId == Some(exit.claudeSessionId)
      && b'.sessions == b.sessions[o.newIds(n) := true][o.newIds(n) := false]
      && b'.audit == b.audit + [AuditRow(Spawn, agent.id, task.id, o.newIds(n), ClaudeIdOf(agent, o.newIds, n))]
           + [AuditRow(if exit.code == Some(0) then TaskDone else TaskFailed, agent.id, task.id, o.newIds(n),
                       exit.claudeSessionId)]
    ensures RunCloses(o, b, b', agent, task, settled, n)
  {
    hide LaunchCall, ClaudeIdOf;
    UpdatedAt(b.tasks, b'.tasks, task.id);
    UpdatedAt(b.agents, b'.agents, agent.id);
  }

  lemma UpdatedAt<V(!new)>(before: map<int, V>, after: map<int, V>, id: int)
    requires OnlyAt(before, after, id) && id in after
    ensures after == before[id := after[id]]
  {
    var updated := before[id := after[id]];
    assert updated.Keys == after.Keys;
    assert forall k :: k in updated ==> updated[k] == after[k];
  }

  // The first two saves are overwritten.
  lemma ClosesFromStart(o: Office, b: Books, between: Books, b': Books, agent: Agent, task: Task, settled: Task, n: nat)
    requires between == b.(tasks := b.tasks[task.id := task.(status := Running)],
                           agents := b.agents[agent.id := agent.(status := Working)])
    requires RunCloses(o, between, b', agent.(status := Working), task.(status := Running), settled, n)
    ensures RunCloses(o, b, b', agent, task, settled, n)
  {
  }

  lemma AgentSettledAtLast(before: map<int, Agent>, between: map<int, Agent>, agent: Agent, at: seq<Try<AgentStatus>>,
                           landed: bool, now: AgentStatus)
    requires AgentShows(before, between, agent, at) && agent.id in before && before[agent.id] == agent
    requires agent.status == Working && now == if landed then InError else between[agent.id].status
    ensures SettledBy([Try(agent.id, Working, true)] + (at + [Try(agent.id, InError, landed)]), agent.id, Working, AgentEnds, now)
  {
    SettledAtLast(agent.id, Working, AgentEnds, at, Try(agent.id, InError, landed), between[agent.id].status, now);
  }

  lemma TaskSettledAtLast(before: map<int, Task>, between: map<int, Task>, task: Task, tt: seq<Try<TaskStatus>>,
                          landed: bool, now: Task)
    requires TaskShows(before, between, task, tt) && task.id in before && before[task.id] == task
    requires task.status == Running && now == if landed then task.(status := Failed) else between[task.id]
    ensures SettledBy([Try(task.id, Running, true)] + (tt + [Try(task.id, Failed, landed)]), task.id, Running, TaskEnds, now.status)
    ensures now == task.(status := now.status, exitCode := now.exitCode)
  {
    SettledAtLast(task.id, Running, TaskEnds, tt, Try(task.id, Failed, landed), between[task.id].status, now.status);
  }

  lemma TriedEndClosesSession(before: map<string, bool>, between: map<string, bool>, after: map<string, bool>,
                              p: Progress, lost: seq<Lost>)
    requires SessionsShow(before, between, p) && EndTried(between, after, p, lost)
    ensures SessionsClosed(before, after, lost)
  {
  }

  // A run whose first call is the n-th: closed by its process's exit, or failed when one of its calls did.
  ghost predicate Ran(o: Office, b: Books, b': Books, agent: Agent, task: Task, settled: Task, n: nat) {
    if RunSucceeds(o.fails, o.newIds, b.sessions, agent, n) then RunCloses(o, b, b', agent, task, settled, n)
    else settled == task.(status := Failed)
  }

  /** A task whose process was started for it is done, and its agent idle, exactly when no call of the run failed and
      the process exited with code zero; the exit code is the process's own when no call failed. */
  lemma DoneIff(o: Office, b: Books, b': Books, agent: Agent, task: Task, settled: Task, n: nat)
    requires Ran(o, b, b', agent, task, settled, n) && task.status != Done
    ensures var exit := o.exits(LaunchCall(agent, n));
      var succeeds := RunSucceeds(o.fails, o.newIds, b.sessions, agent, n);
      && (settled.status == Done <==> succeeds && exit.code == Some(0))
      && (settled.status != Done ==> settled.status == Failed)
      && (succeeds ==> settled.exitCode == exit.code && b'.tasks == b.tasks[task.id := settled] && agent.id in b'.agents
                       && (b'.agents[agent.id].status == Idle <==> exit.code == Some(0)))
  {
    hide RunSucceeds, LaunchCall, ClaudeIdOf;
  }

  lemma RanFromStart(o: Office, b: Books, between: Books, b': Books, agent: Agent, task: Task, settled: Task, n: nat)
    requires between == b.(tasks := b.tasks[task.id := task.(status := Running)],
                           agents := b.agents[agent.id := agent.(status := Working)])
    requires Ran(o, between, b', agent.(status := Working), task.(status := Running), settled, n)
    ensures Ran(o, b, b', agent, task, settled, n)
  {
    hide RunCloses;
    if RunSucceeds(o.fails, o.newIds, b.sessions, agent, n) {
      ClosesFromStart(o, b, between, b', agent, task, settled, n);
    }
  }

  // From here on the call settles, whatever fails.
  method RunTask(o: Office, agent: Agent, task: Task, allowFull: bool)
    returns (settled: Task, ghost at: seq<Try<AgentStatus>>, ghost tt: seq<Try<TaskStatus>>)
    requires o.Valid()
    requires agent.id in o.agents && o.agents[agent.id] == agent && agent.status == Working
    requires task.id in o.tasks && o.tasks[task.id] == task && task.status == Running && task.agentId == agent.id
    requires agent.roleId in o.roles && (o.roles[agent.roleId] == Full ==> allowFull)
    modifies o`calls, o`sessions, o`audit, o`lost, o`tasks, o`taskTries, o`agents, o`agentTries, o`launched
    ensures o.Valid()
    ensures OnlyAt(old(o.agents), o.agents, agent.id) && OnlyAt(old(o.tasks), o.tasks, task.id)
    ensures o.agentTries == old(o.agentTries) + at && o.taskTries == old(o.taskTries) + tt
    ensures Settlement(settled, agent.id, task, o.tasks[task.id], o.agents[agent.id].status,
                       [Try(agent.id, Working, true)] + at, [Try(task.id, Running, true)] + tt)
    ensures SessionsClosed(old(o.sessions), o.sessions, o.lost)
    ensures SpawnsClosed(old(o.audit), o.audit, o.lost) && Grew(old(o.audit), o.audit)
    ensures Grew(old(o.lost), o.lost)
    ensures o.launched == old(o.launched) || o.launched == old(o.launched) + [task.id]
    ensures settled.status == Done ==> o.launched == old(o.launched) + [task.id]
    ensures Ran(o, old(BooksOf(o)), BooksOf(o), agent, task, settled, old(o.calls))
  {
    hide RunSucceeds, RunCloses;
    hide SettledBy, SpawnsClosed, SessionsClosed, AuditShows, SessionsShow, RowTried, EndTried;
    var done, progress;
    done, progress, at, tt := AttemptRun(o, agent, task, allowFull);
    if done.Some? {
      EndedSessionIsClosed(old(o.sessions), o.sessions, progress, o.lost);
      hide Settlement;
      settled := done.value;
      return;
    }
    ghost var agents, tasks, sessions, audit := o.agents, o.tasks, o.sessions, o.audit;
    ghost var agentLanded, taskLanded;
    settled, agentLanded, taskLanded := CleanUp(o, agent, task, progress);
    AgentSettledAtLast(old(o.agents), agents, agent, at, agentLanded, o.agents[agent.id].status);
    TaskSettledAtLast(old(o.tasks), tasks, task, tt, taskLanded, o.tasks[task.id]);
    TriedRowClosesSpawn(old(o.audit), audit, o.audit, agent.id, task.id, progress, FailedRow(agent, task, progress), o.lost);
    TriedEndClosesSession(old(o.sessions), sessions, o.sessions, progress, o.lost);
    at, tt := at + [Try(agent.id, InError, agentLanded)], tt + [Try(task.id, Failed, taskLanded)];
  }

  lemma EndedSessionIsClosed(before: map<string, bool>, after: map<string, bool>, p: Progress, lost: seq<Lost>)
    requires SessionsShow(before, after, p) && p.ended
    ensures SessionsClosed(before, after, lost)
  {
  }

  // A call that refuses the role's mode spawns nothing, and settles the task and the agent.
  predicate Denied(mode: PermissionMode, allowFull: bool) {
    mode == Full && !allowFull
  }

  ghost predicate DeniedSettlement(task: Task, agentId: int, before: Task, after: Task, agentStatus: AgentStatus,
                                   at: seq<Try<AgentStatus>>, tt: seq<Try<TaskStatus>>) {
    && task == before.(status := Failed) && after == task && agentStatus == InError
    && at == [Try(agentId, InError, true)] && tt == [Try(task.id, Failed, true)]
  }

  // The agent's next task, alone, has gone to a status.
  ghost predicate NextMoved(before: map<int, Task>, after: map<int, Task>, agentId: int, status: TaskStatus) {
    exists id :: IsNext(before, agentId, id) && after == before[id := before[id].(status := status)]
  }

  // What a call that threw leaves of the tasks: its first write, if it landed, when the agent's write after it failed.
  ghost predicate LeftBy(before: map<int, Task>, after: map<int, Task>, agentId: int, at: seq<Try<AgentStatus>>) {
    if at == [Try(agentId, Working, false)] then NextMoved(before, after, agentId, Running)
    else if at == [Try(agentId, InError, false)] then NextMoved(before, after, agentId, Failed)
    else at == [] && after == before
  }

  /** The calls, counted from `n`, that leave a task running although nothing runs it: there is work, the role is
      permitted, the three reads and the task's write succeed, and the agent's write fails. */
  predicate Strands(agents: map<int, Agent>, tasks: map<int, Task>, roles: map<int, PermissionMode>, agentId: int,
                    allowFull: bool, fails: nat -> bool, n: nat) {
    && agentId in agents && Runnable(agents[agentId].status) && QueuedOf(tasks, agentId) != {}
    && agents[agentId].roleId in roles && !Denied(roles[agents[agentId].roleId], allowFull)
    && !fails(n) && !fails(n + 1) && !fails(n + 2) && !fails(n + 3) && fails(n + 4)
  }

  /** The calls, counted from `n`, that start a run: there is work, the role is permitted, and none of the three reads
      and two writes fails. */
  predicate Starts(agents: map<int, Agent>, tasks: map<int, Task>, roles: map<int, PermissionMode>, agentId: int,
                   allowFull: bool, fails: nat -> bool, n: nat) {
    && agentId in agents && Runnable(agents[agentId].status) && QueuedOf(tasks, agentId) != {}
    && agents[agentId].roleId in roles && !Denied(roles[agents[agentId].roleId], allowFull)
    && !fails(n) && !fails(n + 1) && !fails(n + 2) && !fails(n + 3) && !fails(n + 4)
  }

  /** One idle agent with one queued task, whose fifth call fails. */
  lemma OneFailingWriteStrands()
    ensures Strands(map[1 := Agent(1, 1, Idle, None)], map[7 := Task(7, 1, Queued, 0, None)], map[1 := AcceptEdits], 1,
                    false, n => n == 4, 0)
  {
    assert 7 in QueuedOf(map[7 := Task(7, 1, Queued, 0, None)], 1);
  }

  method ProcessNextTask(o: Office, agentId: int, allowFull: bool)
    returns (r: Outcome, ghost at: seq<Try<AgentStatus>>, ghost tt: seq<Try<TaskStatus>>)
    requires o.Valid()
    modifies o`calls, o`sessions, o`audit, o`lost, o`tasks, o`taskTries, o`agents, o`agentTries, o`launched
    ensures o.Valid()
    ensures o.agentTries == old(o.agentTries) + at && o.taskTries == old(o.taskTries) + tt
    ensures Grew(old(o.audit), o.audit) && Grew(old(o.lost), o.lost)
    ensures SessionsClosed(old(o.sessions), o.sessions, o.lost) && SpawnsClosed(old(o.audit), o.audit, o.lost)
    ensures !r.Settled? ==>
      && o.agents == old(o.agents) && o.sessions == old(o.sessions) && o.audit == old(o.audit)
      && o.launched == old(o.launched)
    ensures r.Nothing? ==>
      && o.tasks == old(o.tasks) && agentId in o.agents && at == [] && tt == []
      && (!Runnable(o.agents[agentId].status) || QueuedOf(o.tasks, agentId) == {})
    ensures r.Rejected? ==>
      && LeftBy(old(o.tasks), o.tasks, agentId, at)
      && (NextMoved(old(o.tasks), o.tasks, agentId, Running) <==> at == [Try(agentId, Working, false)])
    // Exactly when the call rejects and leaves its task running.
    ensures r.Rejected? && at == [Try(agentId, Working, false)] <==>
      Strands(old(o.agents), old(o.tasks), o.roles, agentId, allowFull, o.fails, old(o.calls))
    ensures r.Settled? ==>
      && agentId in old(o.agents) && Runnable(old(o.agents)[agentId].status)
      && IsNext(old(o.tasks), agentId, r.task.id) && old(o.agents)[agentId].roleId in o.roles
      && if Denied(o.roles[old(o.agents)[agentId].roleId], allowFull) then
           && o.launched == old(o.launched) && o.sessions == old(o.sessions) && o.audit == old(o.audit)
           && DeniedTask(r.task, agentId, old(o.agents), o.agents, old(o.tasks), o.tasks, at, tt)
         else
           && (o.launched == old(o.launched) || o.launched == old(o.launched) + [r.task.id])
           && (r.task.status == Done ==> o.launched == old(o.launched) + [r.task.id])
           && RanTask(r.task, agentId, old(o.agents), o.agents, old(o.tasks), o.tasks, at, tt)
    // Exactly when a run is started, and what it comes to.
    ensures Starts(old(o.agents), old(o.tasks), o.roles, agentId, allowFull, o.fails, old(o.calls)) <==>
      && r.Settled? && agentId in old(o.agents) && old(o.agents)[agentId].roleId in o.roles
      && !Denied(o.roles[old(o.agents)[agentId].roleId], allowFull)
    ensures Starts(old(o.agents), old(o.tasks), o.roles, agentId, allowFull, o.fails, old(o.calls)) ==>
      && r.Settled? && agentId in old(o.agents) && r.task.id in old(o.tasks)
      && Ran(o, old(BooksOf(o)), BooksOf(o), old(o.agents)[agentId], old(o.tasks)[r.task.id], r.task, old(o.calls) + 5)
  {
    hide Ran;
    hide IsNext, LeftBy, NextMoved, SpawnsClosed, SessionsClosed, Grew, RanTask, DeniedTask, QueuedOf;
    NothingHappened(o.sessions, o.audit, o.lost);
    UnchangedIsLeft(o.tasks, agentId);
    at, tt := [], [];
    var work := FindWork(o, agentId);
    if work.Err? {
      return work.error, at, tt;
    }
    if Denied(work.value.mode, allowFull) {
      r, at, tt := DenyTask(o, work.value.agent, work.value.task);
      if r.Rejected? {
        LeftByOneWrite(old(o.tasks), o.tasks, agentId, work.value.task.id, Failed, InError, at);
      }
      return;
    }
    r, at, tt := StartTask(o, work.value.agent, work.value.task, allowFull);
    if r.Rejected? {
      LeftByOneWrite(old(o.tasks), o.tasks, agentId, work.value.task.id, Running, Working, at);
    }
  }

  lemma NothingHappened(sessions: map<string, bool>, audit: seq<AuditRow>, lost: seq<Lost>)
    ensures SessionsClosed(sessions, sessions, lost) && SpawnsClosed(audit, audit, lost)
    ensures Grew(audit, audit) && Grew(lost, lost)
  {
  }

  lemma LeftByOneWrite(before: map<int, Task>, after: map<int, Task>, agentId: int, id: int, status: TaskStatus,
                       wanted: AgentStatus, at: seq<Try<AgentStatus>>)
    requires IsNext(before, agentId, id)
    requires (status == Running && wanted == Working) || (status == Failed && wanted == InError)
    requires if at == [Try(agentId, wanted, false)] then after == before[id := before[id].(status := status)]
             else at == [] && after == before
    ensures LeftBy(before, after, agentId, at)
    ensures NextMoved(before, after, agentId, Running) <==> at == [Try(agentId, Working, false)]
  {
    if NextMoved(before, after, agentId, Running) {
      var other :| IsNext(before, agentId, other) && after == before[other := before[other].(status := Running)];
      assert after[other].status == Running && before[other].status == Queued;
    }
  }

  ghost predicate DeniedTask(task: Task, agentId: int, agents: map<int, Agent>, agents': map<int, Agent>,
                             tasks: map<int, Task>, tasks': map<int, Task>,
                             at: seq<Try<AgentStatus>>, tt: seq<Try<TaskStatus>>) {
    && agentId in agents && OnlyAt(agents, agents', agentId)
    && task.id in tasks && OnlyAt(tasks, tasks', task.id)
    && DeniedSettlement(task, agentId, tasks[task.id], tasks'[task.id], agents'[agentId].status, at, tt)
  }

  ghost predicate RanTask(task: Task, agentId: int, agents: map<int, Agent>, agents': map<int, Agent>,
                          tasks: map<int, Task>, tasks': map<int, Task>,
                          at: seq<Try<AgentStatus>>, tt: seq<Try<TaskStatus>>) {
    && agentId in agents && OnlyAt(agents, agents', agentId)
    && task.id in tasks && OnlyAt(tasks, tasks', task.id)
    && Settlement(task, agentId, tasks[task.id].(status := Running), tasks'[task.id], agents'[agentId].status, at, tt)
  }

  // Step 4, and the run once both its writes have landed.
  method StartTask(o: Office, agent: Agent, task: Task, allowFull: bool)
    returns (r: Outcome, ghost at: seq<Try<AgentStatus>>, ghost tt: seq<Try<TaskStatus>>)
    requires o.Valid() && agent.id in o.agents && o.agents[agent.id] == agent
    requires task.id in o.tasks && o.tasks[task.id] == task && task.agentId == agent.id
    requires agent.roleId in o.roles && !Denied(o.roles[agent.roleId], allowFull)
    modifies o`calls, o`sessions, o`audit, o`lost, o`tasks, o`taskTries, o`agents, o`agentTries, o`launched
    ensures o.Valid()
    ensures o.agentTries == old(o.agentTries) + at && o.taskTries == old(o.taskTries) + tt
    ensures Grew(old(o.audit), o.audit) && Grew(old(o.lost), o.lost)
    ensures SessionsClosed(old(o.sessions), o.sessions, o.lost) && SpawnsClosed(old(o.audit), o.audit, o.lost)
    ensures r.Settled? || r.Rejected?
    ensures r.Rejected? ==>
      && o.agents == old(o.agents) && o.sessions == old(o.sessions) && o.audit == old(o.audit)
      && o.launched == old(o.launched)
      && (if at == [Try(agent.id, Working, false)] then o.tasks == old(o.tasks)[task.id := task.(status := Running)]
          else at == [] && o.tasks == old(o.tasks))
    ensures r.Rejected? && at == [Try(agent.id, Working, false)] <==> !o.fails(old(o.calls)) && o.fails(old(o.calls) + 1)
    ensures r.Settled? <==> !o.fails(old(o.calls)) && !o.fails(old(o.calls) + 1)
    ensures r.Settled? ==>
      && r.task.id == task.id
      && RanTask(r.task, agent.id, old(o.agents), o.agents, old(o.tasks), o.tasks, at, tt)
      && (o.launched == old(o.launched) || o.launched == old(o.launched) + [task.id])
      && (r.task.status == Done ==> o.launched == old(o.launched) + [task.id])
    ensures r.Settled? ==> Ran(o, old(BooksOf(o)), BooksOf(o), agent, task, r.task, old(o.calls) + 2)
  {
    hide Ran, RunSucceeds, RunCloses, SpawnsClosed, SessionsClosed, SettledBy, Grew;
    NothingHappened(o.sessions, o.audit, o.lost);
    ghost var start := BooksOf(o);
    var running, working := task.(status := Running), agent.(status := Working);
    var ok := o.SaveTask(running);
    if !ok {
      return Rejected, [], [Try(task.id, Running, false)];
    }
    ok := o.SaveAgent(working);
    if !ok {
      return Rejected, [Try(agent.id, Working, false)], [Try(task.id, Running, true)];
    }
    ghost var between := BooksOf(o);
    var settled, a, t := RunTask(o, working, running, allowFull);
    RanFromStart(o, start, between, BooksOf(o), agent, task, settled, old(o.calls) + 2);
    r, at, tt := Settled(settled), [Try(agent.id, Working, true)] + a, [Try(task.id, Running, true)] + t;
  }

  datatype Work = Work(agent: Agent, task: Task, mode: PermissionMode)

  // Steps 1 to 3, which only read.
  method FindWork(o: Office, agentId: int) returns (work: Result<Work, Outcome>)
    requires o.Valid()
    modifies o`calls
    ensures work.Err? ==> !work.error.Settled?
    ensures work == Err(Nothing) ==>
      && agentId in o.agents
      && (!Runnable(o.agents[agentId].status) || QueuedOf(o.tasks, agentId) == {})
    ensures work.Ok? <==>
      && agentId in o.agents && Runnable(o.agents[agentId].status) && QueuedOf(o.tasks, agentId) != {}
      && o.agents[agentId].roleId in o.roles
      && !o.fails(old(o.calls)) && !o.fails(old(o.calls) + 1) && !o.fails(old(o.calls) + 2)
    ensures work.Ok? ==> o.calls == old(o.calls) + 3
    ensures work.Ok? ==>
      && agentId in o.agents && work.value.agent == o.agents[agentId] && Runnable(work.value.agent.status)
      && IsNext(o.tasks, agentId, work.value.task.id) && work.value.task.id in o.tasks
      && work.value.task == o.tasks[work.value.task.id] && work.value.task.agentId == agentId
      && work.value.agent.roleId in o.roles && work.value.mode == o.roles[work.value.agent.roleId]
  {
    var agent := o.LoadAgent(agentId);
    if agent == None {
      return Err(Rejected);
    }
    if !Runnable(agent.value.status) {
      return Err(Nothing);
    }
    var queued := o.ListQueued(agentId);
    if queued == None {
      return Err(Rejected);
    }
    if queued.value == {} {
      return Err(Nothing);
    }
    var first := EarliestOf(o.tasks, queued.value);
    var mode := o.LoadRole(agent.value.roleId);
    if mode == None {
      return Err(Rejected);
    }
    return Ok(Work(agent.value, o.tasks[first], mode.value));
  }

  method DenyTask(o: Office, agent: Agent, task: Task)
    returns (r: Outcome, ghost at: seq<Try<AgentStatus>>, ghost tt: seq<Try<TaskStatus>>)
    requires o.Valid() && agent.id in o.agents && o.agents[agent.id] == agent
    requires task.id in o.tasks && o.tasks[task.id] == task
    modifies o`calls, o`tasks, o`taskTries, o`agents, o`agentTries
    ensures o.Valid()
    ensures o.agentTries == old(o.agentTries) + at && o.taskTries == old(o.taskTries) + tt
    ensures r.Settled? || r.Rejected?
    ensures r.Rejected? ==>
      && o.agents == old(o.agents)
      && (if at == [Try(agent.id, InError, false)] then o.tasks == old(o.tasks)[task.id := task.(status := Failed)]
          else at == [] && o.tasks == old(o.tasks))
    ensures at != [Try(agent.id, Working, false)]
    ensures r.Settled? ==>
      && r.task.id == task.id
      && DeniedTask(r.task, agent.id, old(o.agents), o.agents, old(o.tasks), o.tasks, at, tt)
  {
    var failed := task.(status := Failed);
    var ok := o.SaveTask(failed);
    at, tt := [], [Try(task.id, Failed, ok)];
    if !ok {
      return Rejected, at, tt;
    }
    ok := o.SaveAgent(agent.(status := InError));
    at := [Try(agent.id, InError, ok)];
    r := if ok then Settled(failed) else Rejected;
  }

  // ---------- Nothing stuck ----------

  ghost predicate LostFor<S(!new)>(tries: seq<Try<S>>, id: int) {
    exists k :: 0 <= k < |tries| && tries[k].id == id && !tries[k].landed
  }

  /** A working agent, or a running task, has a failed save of its own to show for it. */
  ghost predicate NothingStuck(agents: map<int, Agent>, tasks: map<int, Task>,
                               at: seq<Try<AgentStatus>>, tt: seq<Try<TaskStatus>>) {
    && (forall a :: a in agents && agents[a].status == Working ==> LostFor(at, a))
    && (forall t :: t in tasks && tasks[t].status == Running ==> LostFor(tt, t) || LostFor(at, tasks[t].agentId))
  }

  lemma LostStaysLost<S(!new)>(earlier: seq<Try<S>>, later: seq<Try<S>>, id: int)
    ensures LostFor(earlier, id) || LostFor(later, id) ==> LostFor(earlier + later, id)
  {
    if LostFor(earlier, id) {
      var k :| 0 <= k < |earlier| && earlier[k].id == id && !earlier[k].landed;
      assert (earlier + later)[k] == earlier[k];
    } else if LostFor(later, id) {
      var k :| 0 <= k < |later| && later[k].id == id && !later[k].landed;
      assert (earlier + later)[|earlier| + k] == later[k];
    }
  }

  lemma StuckMeansLost<S(!new)>(tries: seq<Try<S>>, id: int, working: S, ends: set<S>, now: S)
    requires SettledBy(tries, id, working, ends, now) && working !in ends && now == working
    ensures LostFor(tries, id)
  {
    StuckIffAllLost(tries, id, working, ends, now);
    assert !tries[1].landed;
  }

  lemma RanTaskLeavesNothingStuck(task: Task, agentId: int, agents: map<int, Agent>, agents': map<int, Agent>,
                                  tasks: map<int, Task>, tasks': map<int, Task>, at: seq<Try<AgentStatus>>,
                                  tt: seq<Try<TaskStatus>>, at0: seq<Try<AgentStatus>>, tt0: seq<Try<TaskStatus>>)
    requires NothingStuck(agents, tasks, at0, tt0)
    requires RanTask(task, agentId, agents, agents', tasks, tasks', at, tt)
      || DeniedTask(task, agentId, agents, agents', tasks, tasks', at, tt)
    ensures NothingStuck(agents', tasks', at0 + at, tt0 + tt)
  {
    forall a | a in agents' && agents'[a].status == Working ensures LostFor(at0 + at, a) {
      LostStaysLost(at0, at, a);
      if a == agentId {
        StuckMeansLost(at, a, Working, AgentEnds, Working);
      }
    }
    forall t | t in tasks' && tasks'[t].status == Running
      ensures LostFor(tt0 + tt, t) || LostFor(at0 + at, tasks'[t].agentId)
    {
      LostStaysLost(tt0, tt, t);
      LostStaysLost(at0, at, tasks'[t].agentId);
      if t == task.id {
        StuckMeansLost(tt, t, Running, TaskEnds, Running);
      }
    }
  }

  lemma LeftByLeavesNothingStuck(agentId: int, agents: map<int, Agent>, tasks: map<int, Task>, tasks': map<int, Task>,
                                 at: seq<Try<AgentStatus>>, tt: seq<Try<TaskStatus>>,
                                 at0: seq<Try<AgentStatus>>, tt0: seq<Try<TaskStatus>>)
    requires NothingStuck(agents, tasks, at0, tt0) && LeftBy(tasks, tasks', agentId, at)
    ensures NothingStuck(agents, tasks', at0 + at, tt0 + tt)
  {
    forall a | a in agents && agents[a].status == Working ensures LostFor(at0 + at, a) {
      LostStaysLost(at0, at, a);
    }
    forall t | t in tasks' && tasks'[t].status == Running
      ensures LostFor(tt0 + tt, t) || LostFor(at0 + at, tasks'[t].agentId)
    {
      LostStaysLost(tt0, tt, t);
      LostStaysLost(at0, at, tasks'[t].agentId);
      if tasks'[t] != tasks[t] {
        assert at[0].id == tasks'[t].agentId;
      }
    }
  }

  // ---------- A whole queue ----------

  // What processing a task does to the queues.
  lemma SettledLeavesTheQueue(task: Task, agentId: int, agents: map<int, Agent>, agents': map<int, Agent>,
                              tasks: map<int, Task>, tasks': map<int, Task>, at: seq<Try<AgentStatus>>,
                              tt: seq<Try<TaskStatus>>)
    requires RanTask(task, agentId, agents, agents', tasks, tasks', at, tt)
      || DeniedTask(task, agentId, agents, agents', tasks, tasks', at, tt)
    requires task.id in QueuedOf(tasks, agentId)
    ensures QueuedOf(tasks', agentId) == QueuedOf(tasks, agentId) - {task.id}
    ensures OnlyAt(agents, agents', agentId) && OnlyAt(tasks, tasks', task.id) && tasks'[task.id].agentId == agentId
    ensures task.status == Done || task.status == Failed
    ensures task.queuedAt == tasks[task.id].queuedAt
    ensures task.status == Done ==> tasks'[task.id] == task && Runnable(agents'[agentId].status)
    ensures task.status == Failed ==> !Runnable(agents'[agentId].status) || LostFor(at, agentId)
  {
    if RanTask(task, agentId, agents, agents', tasks, tasks', at, tt) {
      StuckIffAllLost(tt, task.id, Running, TaskEnds, tasks'[task.id].status);
      StuckIffAllLost(at, agentId, Working, AgentEnds, agents'[agentId].status);
      if task.status == Failed && !at[|at| - 1].landed {
        assert LostFor(at, agentId);
      }
    }
    assert forall id :: id in tasks' && id != task.id ==> tasks'[id] == tasks[id];
  }

  ghost function IdsOf(processed: seq<Task>): set<int> {
    set i | 0 <= i < |processed| :: processed[i].id
  }

  // A drain touches only the tasks its agent had queued, and the agent.
  ghost predicate OnlyQueueOf(tasks: map<int, Task>, tasks': map<int, Task>, agentId: int) {
    && tasks'.Keys == tasks.Keys
    && forall id :: id in tasks ==>
         if id in QueuedOf(tasks, agentId) then tasks'[id].agentId == agentId else tasks'[id] == tasks[id]
  }

  // The tasks drained so far were taken from the queue once each, earliest first, and done.
  ghost predicate DrainedSoFar(processed: seq<Task>, agentId: int, tasks: map<int, Task>, tasks': map<int, Task>) {
    && OnlyQueueOf(tasks, tasks', agentId)
    && (forall i, j :: 0 <= i < j < |processed| ==>
          processed[i].id != processed[j].id && processed[i].queuedAt <= processed[j].queuedAt)
    && (forall i :: 0 <= i < |processed| && processed[i].status == Done ==>
          processed[i].id in tasks' && tasks'[processed[i].id] == processed[i])
    && IdsOf(processed) <= QueuedOf(tasks, agentId)
    && QueuedOf(tasks', agentId) == QueuedOf(tasks, agentId) - IdsOf(processed)
    && (forall i, id :: 0 <= i < |processed| && id in QueuedOf(tasks', agentId) ==>
          processed[i].queuedAt <= tasks'[id].queuedAt)
  }

  lemma DrainOneMore(processed: seq<Task>, task: Task, agentId: int, tasks: map<int, Task>, between: map<int, Task>,
                     tasks': map<int, Task>)
    requires DrainedSoFar(processed, agentId, tasks, between) && IsNext(between, agentId, task.id)
    requires OnlyAt(between, tasks', task.id) && tasks'[task.id].agentId == agentId
    requires QueuedOf(tasks', agentId) == QueuedOf(between, agentId) - {task.id}
    requires task.queuedAt == between[task.id].queuedAt && (task.status == Done ==> tasks'[task.id] == task)
    ensures DrainedSoFar(processed + [task], agentId, tasks, tasks')
  {
    var more := processed + [task];
    assert IdsOf(more) == IdsOf(processed) + {task.id} by {
      forall id ensures id in IdsOf(more) <==> id in IdsOf(processed) + {task.id} {
        if id in IdsOf(processed) {
          var i :| 0 <= i < |processed| && processed[i].id == id;
          assert more[i].id == id;
        }
        assert more[|processed|] == task;
      }
    }
    assert task.id !in IdsOf(processed);
    forall i | 0 <= i < |processed| ensures processed[i].id != task.id {
      assert processed[i].id in IdsOf(processed);
    }
  }

  lemma LeftByOnlyQueue(tasks: map<int, Task>, between: map<int, Task>, tasks': map<int, Task>, agentId: int,
                        at: seq<Try<AgentStatus>>)
    requires OnlyQueueOf(tasks, between, agentId) && QueuedOf(between, agentId) <= QueuedOf(tasks, agentId)
    requires LeftBy(between, tasks', agentId, at)
    ensures OnlyQueueOf(tasks, tasks', agentId)
  {
  }

  // Nothing is left to do for the agent, or it must not run, or a save of it failed.
  ghost predicate Drained(agents: map<int, Agent>, tasks: map<int, Task>, at: seq<Try<AgentStatus>>, agentId: int) {
    agentId in agents && (QueuedOf(tasks, agentId) == {} || !Runnable(agents[agentId].status) || LostFor(at, agentId))
  }

  // The stores a drain reads and writes, with the saves attempted so far.
  datatype Store = Store(
    agents: map<int, Agent>,
    tasks: map<int, Task>,
    at: seq<Try<AgentStatus>>,
    tt: seq<Try<TaskStatus>>)

  ghost function StoreOf(o: Office): Store
    reads o
  {
    Store(o.agents, o.tasks, o.agentTries, o.taskTries)
  }

  // Whatever happened, nothing but the agent and its queue changed, and nothing got stuck silently.
  ghost predicate DrainFrame(s: Store, s': Store, agentId: int) {
    && OnlyQueueOf(s.tasks, s'.tasks, agentId)
    && s'.agents.Keys == s.agents.Keys
    && (forall a :: a in s.agents && a != agentId ==> s'.agents[a] == s.agents[a])
    && Grew(s.at, s'.at) && Grew(s.tt, s'.tt)
    && (NothingStuck(s.agents, s.tasks, s.at, s.tt) ==> NothingStuck(s'.agents, s'.tasks, s'.at, s'.tt))
  }

  ghost predicate DrainInvariant(s: Store, s': Store, agentId: int, processed: seq<Task>) {
    DrainFrame(s, s', agentId) && DrainedSoFar(processed, agentId, s.tasks, s'.tasks)
  }

  ghost predicate Stepped(s: Store, s': Store, agentId: int, r: Outcome, at: seq<Try<AgentStatus>>, tt: seq<Try<TaskStatus>>) {
    && s'.at == s.at + at && s'.tt == s.tt + tt
    && match r
       case Nothing => s'.agents == s.agents && s'.tasks == s.tasks && at == []
       case Rejected => s'.agents == s.agents && LeftBy(s.tasks, s'.tasks, agentId, at)
       case Settled(task) =>
         && IsNext(s.tasks, agentId, task.id)
         && (RanTask(task, agentId, s.agents, s'.agents, s.tasks, s'.tasks, at, tt)
             || DeniedTask(task, agentId, s.agents, s'.agents, s.tasks, s'.tasks, at, tt))
  }

  lemma StepKeepsNothingStuck(s: Store, s': Store, agentId: int, r: Outcome, at: seq<Try<AgentStatus>>,
                              tt: seq<Try<TaskStatus>>)
    requires Stepped(s, s', agentId, r, at, tt) && NothingStuck(s.agents, s.tasks, s.at, s.tt)
    ensures NothingStuck(s'.agents, s'.tasks, s'.at, s'.tt)
  {
    hide NothingStuck, RanTask, DeniedTask, LeftBy, IsNext;
    match r
    case Settled(task) =>
      RanTaskLeavesNothingStuck(task, agentId, s.agents, s'.agents, s.tasks, s'.tasks, at, tt, s.at, s.tt);
    case Rejected =>
      LeftByLeavesNothingStuck(agentId, s.agents, s.tasks, s'.tasks, at, tt, s.at, s.tt);
    case Nothing =>
      UnchangedIsLeft(s.tasks, agentId);
      LeftByLeavesNothingStuck(agentId, s.agents, s.tasks, s'.tasks, at, tt, s.at, s.tt);
  }

  lemma UnchangedIsLeft(tasks: map<int, Task>, agentId: int)
    ensures LeftBy(tasks, tasks, agentId, []) && !NextMoved(tasks, tasks, agentId, Running)
  {
    MovingIsAChange(tasks, tasks, agentId);
  }

  lemma MovingIsAChange(before: map<int, Task>, after: map<int, Task>, agentId: int)
    ensures NextMoved(before, after, agentId, Running) ==> after != before
  {
    if NextMoved(before, after, agentId, Running) {
      var id :| IsNext(before, agentId, id) && after == before[id := before[id].(status := Running)];
      assert after[id].status == Running && before[id].status == Queued;
    }
  }

  lemma GrewMore<T(!new)>(before: seq<T>, between: seq<T>, more: seq<T>)
    requires Grew(before, between)
    ensures Grew(before, between + more)
  {
  }

  lemma SettledStep(s0: Store, s: Store, s': Store, agentId: int, processed: seq<Task>, task: Task,
                    at: seq<Try<AgentStatus>>, tt: seq<Try<TaskStatus>>)
    requires DrainedSoFar(processed, agentId, s0.tasks, s.tasks) && Stepped(s, s', agentId, Settled(task), at, tt)
    ensures DrainedSoFar(processed + [task], agentId, s0.tasks, s'.tasks)
    ensures OnlyAt(s.agents, s'.agents, agentId) && agentId in s'.agents
    ensures |QueuedOf(s'.tasks, agentId)| < |QueuedOf(s.tasks, agentId)|
    ensures task.status == Failed ==> Drained(s'.agents, s'.tasks, s'.at, agentId)
    ensures task.status == Done || task.status == Failed
  {
    NextIsQueued(s.tasks, agentId, task.id);
    SettledLeavesTheQueue(task, agentId, s.agents, s'.agents, s.tasks, s'.tasks, at, tt);
    LostStaysLost(s.at, at, agentId);
    Shrinks(QueuedOf(s.tasks, agentId), task.id);
    hide QueuedOf, LostFor, DrainedSoFar, IsNext, Settlement, DeniedSettlement;
    DrainOneMore(processed, task, agentId, s0.tasks, s.tasks, s'.tasks);
  }

  lemma StepKeepsFrame(s0: Store, s: Store, s': Store, agentId: int, processed: seq<Task>, r: Outcome,
                       at: seq<Try<AgentStatus>>, tt: seq<Try<TaskStatus>>)
    requires DrainInvariant(s0, s, agentId, processed) && Stepped(s, s', agentId, r, at, tt)
    ensures DrainFrame(s0, s', agentId)
    ensures r.Nothing? ==> DrainInvariant(s0, s', agentId, processed)
    ensures r.Settled? ==> DrainInvariant(s0, s', agentId, processed + [r.task])
    ensures r.Settled? ==> |QueuedOf(s'.tasks, agentId)| < |QueuedOf(s.tasks, agentId)|
    ensures r.Settled? && r.task.status == Failed ==> Drained(s'.agents, s'.tasks, s'.at, agentId)
    ensures r.Settled? ==> agentId in s'.agents && (r.task.status == Done || r.task.status == Failed)
  {
    if NothingStuck(s0.agents, s0.tasks, s0.at, s0.tt) {
      StepKeepsNothingStuck(s, s', agentId, r, at, tt);
    }
    GrewMore(s0.at, s.at, at);
    GrewMore(s0.tt, s.tt, tt);
    DrainedIsOnlyQueue(processed, agentId, s0.tasks, s.tasks);
    match r
    case Nothing =>
      hide NothingStuck, DrainedSoFar, OnlyQueueOf, Grew;
    case Rejected =>
      LeftByOnlyQueue(s0.tasks, s.tasks, s'.tasks, agentId, at);
      hide NothingStuck, DrainedSoFar, OnlyQueueOf, Grew, LeftBy;
    case Settled(task) =>
      SettledStep(s0, s, s', agentId, processed, task, at, tt);
      DrainedIsOnlyQueue(processed + [task], agentId, s0.tasks, s'.tasks);
      hide NothingStuck, DrainedSoFar, OnlyQueueOf, Grew, RanTask, DeniedTask, IsNext, QueuedOf, Drained;
  }

  lemma DrainedIsOnlyQueue(processed: seq<Task>, agentId: int, tasks: map<int, Task>, tasks': map<int, Task>)
    requires DrainedSoFar(processed, agentId, tasks, tasks')
    ensures OnlyQueueOf(tasks, tasks', agentId) && QueuedOf(tasks', agentId) <= QueuedOf(tasks, agentId)
  {
  }

  lemma NextIsQueued(tasks: map<int, Task>, agentId: int, id: int)
    requires IsNext(tasks, agentId, id)
    ensures id in QueuedOf(tasks, agentId)
  {
  }

  lemma Shrinks(ids: set<int>, id: int)
    requires id in ids
    ensures |ids - {id}| < |ids|
  {
    assert ids == (ids - {id}) + {id};
  }

  method DrainAgent(o: Office, agentId: int, allowFull: bool) returns (processed: seq<Task>, rejected: bool)
    requires o.Valid()
    modifies o`calls, o`sessions, o`audit, o`lost, o`tasks, o`taskTries, o`agents, o`agentTries, o`launched
    ensures o.Valid() && DrainFrame(old(StoreOf(o)), StoreOf(o), agentId)
    ensures rejected ==> processed == []
    ensures !rejected ==>
      && DrainedSoFar(processed, agentId, old(o.tasks), o.tasks)
      && Drained(o.agents, o.tasks, o.agentTries, agentId)
      && (processed == [] || processed[|processed| - 1].status == Done ==>
            QueuedOf(o.tasks, agentId) == {} || !Runnable(o.agents[agentId].status))
    ensures forall i :: 0 <= i < |processed| - 1 ==> processed[i].status == Done
  {
    hide DrainFrame, DrainedSoFar, RanTask, DeniedTask, SpawnsClosed, SessionsClosed, LeftBy, IsNext, LostFor,
      QueuedOf, Grew, Runnable;
    processed, rejected := [], false;
    ghost var start := StoreOf(o);
    DrainStarts(start, agentId);
    while true
      invariant o.Valid()
      invariant DrainInvariant(start, StoreOf(o), agentId, processed)
      invariant forall i :: 0 <= i < |processed| ==> processed[i].status == Done
      decreases |QueuedOf(o.tasks, agentId)|
    {
      ghost var before := StoreOf(o);
      var r, at, tt := ProcessNextTask(o, agentId, allowFull);
      StepKeepsFrame(start, before, StoreOf(o), agentId, processed, r, at, tt);
      match r {
        case Rejected =>
          return [], true;
        case Nothing =>
          return;
        case Settled(task) =>
          processed := processed + [task];
          if task.status == Failed {
            return;
          }
      }
    }
  }

  lemma DrainStarts(s: Store, agentId: int)
    ensures DrainInvariant(s, s, agentId, [])
  {
    assert IdsOf([]) == {};
  }

  // ---------- The whole workspace ----------

  // Every agent's entry may have changed by now, but only through drains.
  ghost predicate WorkspaceFrame(s: Store, s': Store) {
    && s'.agents.Keys == s.agents.Keys && s'.tasks.Keys == s.tasks.Keys
    && (forall id :: id in s.tasks ==> s'.tasks[id].agentId == s.tasks[id].agentId)
    && Grew(s.at, s'.at)
    && (NothingStuck(s.agents, s.tasks, s.at, s.tt) ==> NothingStuck(s'.agents, s'.tasks, s'.at, s'.tt))
  }

  lemma DrainKeepsWorkspace(s0: Store, s: Store, s': Store, agentId: int)
    requires WorkspaceFrame(s0, s) && DrainFrame(s, s', agentId)
    ensures WorkspaceFrame(s0, s')
  {
    hide NothingStuck;
    forall id | id in s.tasks ensures s'.tasks[id].agentId == s.tasks[id].agentId {
      assert id in QueuedOf(s.tasks, agentId) ==> s.tasks[id].agentId == agentId;
    }
  }

  // Draining one agent leaves the others drained.
  lemma DrainKeepsDrained(s: Store, s': Store, agentId: int, other: int)
    requires DrainFrame(s, s', agentId) && other != agentId && Drained(s.agents, s.tasks, s.at, other)
    ensures Drained(s'.agents, s'.tasks, s'.at, other)
  {
    assert QueuedOf(s'.tasks, other) == QueuedOf(s.tasks, other) by {
      forall id ensures id in QueuedOf(s'.tasks, other) <==> id in QueuedOf(s.tasks, other) {
        assert id in QueuedOf(s.tasks, agentId) ==> s.tasks[id].agentId == agentId;
      }
    }
    assert s'.at == s.at + s'.at[|s.at|..];
    LostStaysLost(s.at, s'.at[|s.at|..], other);
  }

  method ListInSomeOrder(ids: set<int>) returns (list: seq<int>)
    ensures forall i, j :: 0 <= i < j < |list| ==> list[i] != list[j]
    ensures forall id :: id in list <==> id in ids
    ensures |list| == |ids|
  {
    list := [];
    var rest := ids;
    while rest != {}
      invariant rest <= ids && |list| + |rest| == |ids|
      invariant forall i, j :: 0 <= i < j < |list| ==> list[i] != list[j]
      invariant forall id :: id in list <==> id in ids - rest
      decreases rest
    {
      ghost var _ := SomeMember(rest);
      var id :| id in rest;
      assert id !in list;
      rest := rest - {id};
      list := list + [id];
    }
  }

  // The agents still to be drained, those being drained, and those done: each agent is one of them, once.
  ghost predicate Pool(all: set<int>, queue: seq<int>, active: set<int>, drains: seq<int>) {
    && (forall i, j :: 0 <= i < j < |queue| ==> queue[i] != queue[j])
    && (forall i, j :: 0 <= i < j < |drains| ==> drains[i] != drains[j])
    && (forall id :: id in all <==> id in queue || id in active || id in drains)
    && (forall id :: id in active ==> id !in queue && id !in drains)
    && (forall id :: id in queue ==> id !in drains)
  }

  lemma PoolWaits(all: set<int>, queue: seq<int>)
    requires (forall i, j :: 0 <= i < j < |queue| ==> queue[i] != queue[j]) && forall id :: id in queue <==> id in all
    ensures Pool(all, queue, {}, [])
  {
  }

  lemma PoolMeans(all: set<int>, queue: seq<int>, active: set<int>, drains: seq<int>)
    requires Pool(all, queue, active, drains)
    ensures forall id :: id in active ==> id in all && id !in queue && id !in drains
    ensures forall id :: id in queue ==> id in all && id !in drains
    ensures forall i, j :: 0 <= i < j < |drains| ==> drains[i] != drains[j]
    ensures queue == [] && active == {} ==> forall id :: id in all <==> id in drains
  {
  }

  lemma PoolStarts(all: set<int>, queue: seq<int>, active: set<int>, drains: seq<int>)
    requires Pool(all, queue, active, drains) && queue != []
    ensures Pool(all, queue[1..], active + {queue[0]}, drains) && queue[0] !in active
  {
    assert queue == [queue[0]] + queue[1..];
    assert queue[0] in queue;
  }

  lemma PoolFinishes(all: set<int>, queue: seq<int>, active: set<int>, drains: seq<int>, id: int)
    requires Pool(all, queue, active, drains) && id in active
    ensures Pool(all, queue, active - {id}, drains + [id])
  {
  }

  // ---------- Drains side by side ----------

  function TasksOf(tasks: map<int, Task>, agentId: int): map<int, Task> {
    map id | id in tasks && tasks[id].agentId == agentId :: tasks[id]
  }

  // What belongs to the agent is as it was.
  ghost predicate Untouched(s: Store, s': Store, agentId: int) {
    && (agentId in s.agents ==> agentId in s'.agents && s'.agents[agentId] == s.agents[agentId])
    && TasksOf(s'.tasks, agentId) == TasksOf(s.tasks, agentId)
  }

  // The drain of the agent has taken `processed` from its queue, whatever other drains did meanwhile.
  ghost predicate OnItsWay(s: Store, s': Store, agentId: int, processed: seq<Task>) {
    DrainedSoFar(processed, agentId, TasksOf(s.tasks, agentId), TasksOf(s'.tasks, agentId))
  }

  lemma QueueOfOwnTasks(tasks: map<int, Task>, agentId: int)
    ensures QueuedOf(TasksOf(tasks, agentId), agentId) == QueuedOf(tasks, agentId)
    ensures forall id :: IsNext(tasks, agentId, id) ==> IsNext(TasksOf(tasks, agentId), agentId, id)
  {
    assert forall id :: id in TasksOf(tasks, agentId) ==> id in tasks && TasksOf(tasks, agentId)[id] == tasks[id];
    assert QueuedOf(TasksOf(tasks, agentId), agentId) == QueuedOf(tasks, agentId);
  }

  // One task of the agent changed, and stays the agent's.
  lemma OwnTaskChanged(tasks: map<int, Task>, tasks': map<int, Task>, agentId: int, id: int)
    requires OnlyAt(tasks, tasks', id) && id in tasks && tasks[id].agentId == agentId && tasks'[id].agentId == agentId
    ensures OnlyAt(TasksOf(tasks, agentId), TasksOf(tasks', agentId), id)
    ensures id in TasksOf(tasks', agentId) && TasksOf(tasks', agentId)[id] == tasks'[id]
    ensures forall other :: other != agentId ==> TasksOf(tasks', other) == TasksOf(tasks, other)
  {
    var own, own' := TasksOf(tasks, agentId), TasksOf(tasks', agentId);
    assert forall k :: k in own' <==> k in own;
    forall other | other != agentId ensures TasksOf(tasks', other) == TasksOf(tasks, other) {
      var theirs, theirs' := TasksOf(tasks, other), TasksOf(tasks', other);
      assert forall k :: k in theirs' <==> k in theirs;
      assert forall k :: k in theirs ==> k != id && tasks'[k] == tasks[k];
    }
  }

  // A call for one agent leaves everything of the others alone.
  lemma StepKeepsOthers(s: Store, s': Store, agentId: int, r: Outcome, at: seq<Try<AgentStatus>>,
                        tt: seq<Try<TaskStatus>>, other: int)
    requires Stepped(s, s', agentId, r, at, tt) && other != agentId
    ensures Untouched(s, s', other) && Grew(s.at, s'.at)
  {
    match r
    case Nothing =>
    case Rejected =>
      if s'.tasks != s.tasks {
        var status := if at == [Try(agentId, Working, false)] then Running else Failed;
        var id :| IsNext(s.tasks, agentId, id) && s'.tasks == s.tasks[id := s.tasks[id].(status := status)];
        OwnTaskChanged(s.tasks, s'.tasks, agentId, id);
      }
    case Settled(task) =>
      NextIsQueued(s.tasks, agentId, task.id);
      SettledLeavesTheQueue(task, agentId, s.agents, s'.agents, s.tasks, s'.tasks, at, tt);
      OwnTaskChanged(s.tasks, s'.tasks, agentId, task.id);
  }

  lemma UntouchedStaysDrained(s: Store, s': Store, agentId: int)
    requires Untouched(s, s', agentId) && Grew(s.at, s'.at) && Drained(s.agents, s.tasks, s.at, agentId)
    ensures Drained(s'.agents, s'.tasks, s'.at, agentId)
  {
    QueueOfOwnTasks(s.tasks, agentId);
    QueueOfOwnTasks(s'.tasks, agentId);
    assert s'.at == s.at + s'.at[|s.at|..];
    LostStaysLost(s.at, s'.at[|s.at|..], agentId);
  }

  lemma StepMovesOwn(s0: Store, s: Store, s': Store, agentId: int, processed: seq<Task>, task: Task,
                     at: seq<Try<AgentStatus>>, tt: seq<Try<TaskStatus>>)
    requires OnItsWay(s0, s, agentId, processed) && Stepped(s, s', agentId, Settled(task), at, tt)
    ensures OnItsWay(s0, s', agentId, processed + [task])
    ensures task.status == Failed ==> Drained(s'.agents, s'.tasks, s'.at, agentId)
    ensures task.status == Done || task.status == Failed
    ensures task.id in s.tasks && s.tasks[task.id].status == Queued && OnlyAt(s.tasks, s'.tasks, task.id)
    ensures s'.tasks[task.id].status != Queued
  {
    NextIsQueued(s.tasks, agentId, task.id);
    SettledLeavesTheQueue(task, agentId, s.agents, s'.agents, s.tasks, s'.tasks, at, tt);
    LostStaysLost(s.at, at, agentId);
    QueueOfOwnTasks(s.tasks, agentId);
    QueueOfOwnTasks(s'.tasks, agentId);
    OwnTaskChanged(s.tasks, s'.tasks, agentId, task.id);
    assert task.id !in QueuedOf(s'.tasks, agentId);
    assert s'.tasks[task.id].agentId == agentId;
    hide LostFor, DrainedSoFar, RanTask, DeniedTask, Settlement, DeniedSettlement;
    DrainOneMore(processed, task, agentId, TasksOf(s0.tasks, agentId), TasksOf(s.tasks, agentId), TasksOf(s'.tasks, agentId));
  }

  // The tasks anyone still has to run.
  function Waiting(tasks: map<int, Task>): set<int> {
    set id | id in tasks && tasks[id].status == Queued
  }

  lemma StepKeepsWorkspace(s0: Store, s: Store, s': Store, agentId: int, r: Outcome, at: seq<Try<AgentStatus>>,
                           tt: seq<Try<TaskStatus>>)
    requires WorkspaceFrame(s0, s) && Stepped(s, s', agentId, r, at, tt)
    ensures WorkspaceFrame(s0, s')
  {
    DrainStarts(s, agentId);
    hide NothingStuck, DrainedSoFar, Stepped;
    StepKeepsFrame(s, s, s', agentId, [], r, at, tt);
    DrainKeepsWorkspace(s0, s, s', agentId);
  }

  // Where the workspace is: each agent waits as it was, is being drained, has been drained, or had a call that threw.
  ghost predicate SideBySide(s0: Store, s: Store, queue: seq<int>, active: set<int>, ended: seq<int>, threw: set<int>,
                             processed: map<int, seq<Task>>) {
    && (forall a :: a in queue ==> Untouched(s0, s, a))
    && (forall a :: a in active ==> a in processed && AllDone(processed[a]) && OnItsWay(s0, s, a, processed[a]))
    && (forall a :: a in ended && a !in threw ==>
          a in processed && OnItsWay(s0, s, a, processed[a]) && Drained(s.agents, s.tasks, s.at, a))
  }

  predicate AllDone(processed: seq<Task>) {
    forall i :: 0 <= i < |processed| ==> processed[i].status == Done
  }

  lemma UntouchedOnwards(s0: Store, s: Store, s': Store, agentId: int)
    requires Untouched(s, s', agentId)
    ensures Untouched(s0, s, agentId) && agentId in s0.agents ==> Untouched(s0, s', agentId)
    ensures forall p :: OnItsWay(s0, s, agentId, p) ==> OnItsWay(s0, s', agentId, p)
  {
    hide DrainedSoFar;
  }

  lemma OthersStay(s0: Store, s: Store, s': Store, agentId: int, r: Outcome, at: seq<Try<AgentStatus>>,
                   tt: seq<Try<TaskStatus>>, queue: seq<int>, active: set<int>, ended: seq<int>, threw: set<int>,
                   processed: map<int, seq<Task>>)
    requires SideBySide(s0, s, queue, active, ended, threw, processed) && Stepped(s, s', agentId, r, at, tt)
    requires agentId !in queue && agentId !in ended && forall a :: a in queue ==> a in s0.agents
    ensures SideBySide(s0, s', queue, active - {agentId}, ended, threw, processed)
  {
    hide Stepped, Untouched, OnItsWay, Drained, Grew, AllDone;
    forall a | a in queue ensures Untouched(s0, s', a) {
      StepKeepsOthers(s, s', agentId, r, at, tt, a);
      UntouchedOnwards(s0, s, s', a);
    }
    forall a | a in active && a != agentId ensures OnItsWay(s0, s', a, processed[a]) {
      StepKeepsOthers(s, s', agentId, r, at, tt, a);
      UntouchedOnwards(s0, s, s', a);
    }
    forall a | a in ended && a !in threw
      ensures OnItsWay(s0, s', a, processed[a]) && Drained(s'.agents, s'.tasks, s'.at, a)
    {
      StepKeepsOthers(s, s', agentId, r, at, tt, a);
      UntouchedOnwards(s0, s, s', a);
      UntouchedStaysDrained(s, s', a);
    }
  }

  lemma DrainGoesOn(s0: Store, s: Store, agentId: int, done: seq<Task>, queue: seq<int>, active: set<int>,
                    ended: seq<int>, threw: set<int>, processed: map<int, seq<Task>>)
    requires SideBySide(s0, s, queue, active - {agentId}, ended, threw, processed) && agentId !in ended
    requires OnItsWay(s0, s, agentId, done)
    ensures AllDone(done) ==> SideBySide(s0, s, queue, active, ended, threw, processed[agentId := done])
    ensures Drained(s.agents, s.tasks, s.at, agentId) ==>
      SideBySide(s0, s, queue, active - {agentId}, ended + [agentId], threw, processed[agentId := done])
  {
    hide Untouched, OnItsWay, Drained, AllDone;
  }

  lemma CallThrew(s0: Store, s: Store, agentId: int, queue: seq<int>, active: set<int>,
                  ended: seq<int>, threw: set<int>, processed: map<int, seq<Task>>)
    requires SideBySide(s0, s, queue, active, ended, threw, processed)
    ensures SideBySide(s0, s, queue, active, ended + [agentId], threw + {agentId}, processed)
  {
    hide Untouched, OnItsWay, Drained, AllDone;
  }

  lemma NextIsStarted(s0: Store, s: Store, queue: seq<int>, active: set<int>, ended: seq<int>, threw: set<int>,
                      processed: map<int, seq<Task>>)
    requires SideBySide(s0, s, queue, active, ended, threw, processed) && queue != [] && queue[0] !in ended
    ensures SideBySide(s0, s, queue[1..], active + {queue[0]}, ended, threw, processed[queue[0] := []])
  {
    assert queue[0] in queue;
    assert IdsOf([]) == {};
    assert OnItsWay(s0, s, queue[0], []);
    hide Untouched, OnItsWay, Drained;
  }

  // The pool and its drains: who waits, who is drained now, who is through, whose call threw, and what was taken.
  datatype Flight = Flight(queue: seq<int>, active: set<int>, ended: seq<int>, threw: set<int>,
                           processed: map<int, seq<Task>>)

  function StartNext(fl: Flight): Flight {
    if fl.queue == [] then fl
    else
      var a := fl.queue[0];
      fl.(queue := fl.queue[1..], active := fl.active + {a}, processed := fl.processed[a := []])
  }

  // What the answer to a call of an agent's drain does: a drain that ends starts the next one, a call that throws does not.
  function Handled(fl: Flight, agentId: int, r: Outcome): Flight {
    var out := fl.(active := fl.active - {agentId}, ended := fl.ended + [agentId]);
    match r
    case Rejected => out.(threw := fl.threw + {agentId})
    case Nothing => StartNext(out)
    case Settled(task) =>
      var taken := fl.processed[agentId := (if agentId in fl.processed then fl.processed[agentId] else []) + [task]];
      if task.status == Failed then StartNext(out.(processed := taken)) else fl.(processed := taken)
  }

  ghost predicate InFlight(all: set<int>, slots: int, s0: Store, s: Store, fl: Flight) {
    IsFlight(all, slots, s0, s, fl.queue, fl.active, fl.ended, fl.threw, fl.processed)
  }

  // The pool with its drains. A slot is in use, or was lost to a call that threw, as long as an agent waits.
  ghost predicate IsFlight(all: set<int>, slots: int, s0: Store, s: Store, queue: seq<int>, active: set<int>,
                           ended: seq<int>, threw: set<int>, processed: map<int, seq<Task>>) {
    && s0.agents.Keys == all == s.agents.Keys
    && Pool(all, queue, active, ended) && WorkspaceFrame(s0, s)
    && SideBySide(s0, s, queue, active, ended, threw, processed)
    && (forall a :: a in threw ==> a in ended)
    && (queue != [] ==> |active| + |threw| >= slots)
  }

  lemma NothingStarted(s: Store, queue: seq<int>)
    requires (forall i, j :: 0 <= i < j < |queue| ==> queue[i] != queue[j]) && forall id :: id in queue <==> id in s.agents
    ensures IsFlight(s.agents.Keys, 0, s, s, queue, {}, [], {}, map[])
  {
    PoolWaits(s.agents.Keys, queue);
    UntouchedWorkspace(s);
  }

  lemma NextInFlight(all: set<int>, slots: int, s0: Store, s: Store, queue: seq<int>, active: set<int>,
                     ended: seq<int>, threw: set<int>, processed: map<int, seq<Task>>)
    requires IsFlight(all, slots, s0, s, queue, active, ended, threw, processed) && queue != []
    ensures IsFlight(all, slots + 1, s0, s, queue[1..], active + {queue[0]}, ended, threw, processed[queue[0] := []])
    ensures queue[0] !in active
  {
    hide WorkspaceFrame, SideBySide;
    PoolStarts(all, queue, active, ended);
    PoolMeans(all, queue, active, ended);
    hide Pool;
    assert queue[0] in queue;
    NextIsStarted(s0, s, queue, active, ended, threw, processed);
    assert |active + {queue[0]}| == |active| + 1;
  }

  lemma SlotsInFlight(all: set<int>, slots: int, slots': int, s0: Store, s: Store, queue: seq<int>, active: set<int>,
                      ended: seq<int>, threw: set<int>, processed: map<int, seq<Task>>)
    requires IsFlight(all, slots, s0, s, queue, active, ended, threw, processed) && (queue != [] ==> slots' <= slots)
    ensures IsFlight(all, slots', s0, s, queue, active, ended, threw, processed)
  {
    hide Pool, WorkspaceFrame, SideBySide;
  }

  // A call for one of the drains: what it belongs to goes on, the rest stays.
  lemma CallInFlight(all: set<int>, slots: int, s0: Store, s: Store, s': Store, agentId: int, r: Outcome,
                     at: seq<Try<AgentStatus>>, tt: seq<Try<TaskStatus>>, queue: seq<int>, active: set<int>,
                     ended: seq<int>, threw: set<int>, processed: map<int, seq<Task>>)
    requires IsFlight(all, slots, s0, s, queue, active, ended, threw, processed)
    requires agentId in active && Stepped(s, s', agentId, r, at, tt) && s'.agents.Keys == s.agents.Keys
    ensures Pool(all, queue, active - {agentId}, ended + [agentId]) && WorkspaceFrame(s0, s') && agentId !in ended
    ensures SideBySide(s0, s', queue, active - {agentId}, ended, threw, processed)
    ensures agentId in processed && AllDone(processed[agentId]) && OnItsWay(s0, s, agentId, processed[agentId])
  {
    PoolMeans(all, queue, active, ended);
    PoolFinishes(all, queue, active, ended, agentId);
    assert agentId in processed && AllDone(processed[agentId]) && OnItsWay(s0, s, agentId, processed[agentId]);
    hide Pool, WorkspaceFrame, Stepped, SideBySide, OnItsWay, AllDone;
    StepKeepsWorkspace(s0, s, s', agentId, r, at, tt);
    OthersStay(s0, s, s', agentId, r, at, tt, queue, active, ended, threw, processed);
  }

  lemma ThrownInFlight(all: set<int>, slots: int, s0: Store, s: Store, s': Store, agentId: int,
                       at: seq<Try<AgentStatus>>, tt: seq<Try<TaskStatus>>, queue: seq<int>, active: set<int>,
                       ended: seq<int>, threw: set<int>, processed: map<int, seq<Task>>)
    requires IsFlight(all, slots, s0, s, queue, active, ended, threw, processed)
    requires agentId in active && Stepped(s, s', agentId, Rejected, at, tt) && s'.agents.Keys == s.agents.Keys
    ensures IsFlight(all, slots, s0, s', queue, active - {agentId}, ended + [agentId], threw + {agentId}, processed)
  {
    hide Pool, WorkspaceFrame, Stepped, SideBySide;
    CallInFlight(all, slots, s0, s, s', agentId, Rejected, at, tt, queue, active, ended, threw, processed);
    CallThrew(s0, s', agentId, queue, active - {agentId}, ended, threw, processed);
    assert |threw + {agentId}| == |threw| + 1 && |active - {agentId}| == |active| - 1;
  }

  lemma IdleInFlight(all: set<int>, slots: int, s0: Store, s: Store, s': Store, agentId: int,
                     at: seq<Try<AgentStatus>>, tt: seq<Try<TaskStatus>>, queue: seq<int>, active: set<int>,
                     ended: seq<int>, threw: set<int>, processed: map<int, seq<Task>>)
    requires IsFlight(all, slots, s0, s, queue, active, ended, threw, processed)
    requires agentId in active && Stepped(s, s', agentId, Nothing, at, tt) && s'.agents.Keys == s.agents.Keys
    requires Drained(s'.agents, s'.tasks, s'.at, agentId)
    ensures IsFlight(all, slots - 1, s0, s', queue, active - {agentId}, ended + [agentId], threw, processed)
  {
    assert s'.tasks == s.tasks;
    hide Pool, WorkspaceFrame, Stepped, SideBySide, Drained, AllDone, DrainedSoFar;
    CallInFlight(all, slots, s0, s, s', agentId, Nothing, at, tt, queue, active, ended, threw, processed);
    assert OnItsWay(s0, s', agentId, processed[agentId]);
    DrainGoesOn(s0, s', agentId, processed[agentId], queue, active, ended, threw, processed);
    assert processed[agentId := processed[agentId]] == processed;
    assert |active - {agentId}| == |active| - 1;
  }

  lemma SettledInFlight(all: set<int>, slots: int, s0: Store, s: Store, s': Store, agentId: int, task: Task,
                        at: seq<Try<AgentStatus>>, tt: seq<Try<TaskStatus>>, queue: seq<int>, active: set<int>,
                        ended: seq<int>, threw: set<int>, processed: map<int, seq<Task>>)
    requires IsFlight(all, slots, s0, s, queue, active, ended, threw, processed)
    requires agentId in active && Stepped(s, s', agentId, Settled(task), at, tt) && s'.agents.Keys == s.agents.Keys
    ensures agentId in processed
    ensures var more := processed[agentId := processed[agentId] + [task]];
      && (task.status == Failed ==> IsFlight(all, slots - 1, s0, s', queue, active - {agentId}, ended + [agentId], threw, more))
      && (task.status != Failed ==> IsFlight(all, slots, s0, s', queue, active, ended, threw, more))
    ensures |Waiting(s'.tasks)| < |Waiting(s.tasks)|
  {
    var done := if agentId in processed then processed[agentId] + [task] else [];
    hide WorkspaceFrame, Stepped, SideBySide, Drained, OnItsWay, Pool;
    CallInFlight(all, slots, s0, s, s', agentId, Settled(task), at, tt, queue, active, ended, threw, processed);
    StepMovesOwn(s0, s, s', agentId, processed[agentId], task, at, tt);
    DrainGoesOn(s0, s', agentId, done, queue, active, ended, threw, processed);
    assert |active - {agentId}| == |active| - 1;
    OneWaitsLess(s.tasks, s'.tasks, task.id);
  }

  lemma OneWaitsLess(tasks: map<int, Task>, tasks': map<int, Task>, id: int)
    requires OnlyAt(tasks, tasks', id) && id in tasks && tasks[id].status == Queued && tasks'[id].status != Queued
    ensures |Waiting(tasks')| < |Waiting(tasks)|
  {
    forall k ensures k in Waiting(tasks') <==> k in Waiting(tasks) - {id} {
      assert k in tasks && k != id ==> tasks'[k] == tasks[k];
    }
    assert Waiting(tasks') == Waiting(tasks) - {id};
    Shrinks(Waiting(tasks), id);
  }

  lemma LandedInFlight(all: set<int>, slots: int, s0: Store, s: Store, queue: seq<int>, ended: seq<int>,
                       threw: set<int>, processed: map<int, seq<Task>>)
    requires IsFlight(all, slots, s0, s, queue, {}, ended, threw, processed)
    ensures forall i, j :: 0 <= i < j < |ended| ==> ended[i] != ended[j]
    ensures forall a :: a in all && a in ended && a !in threw ==>
      Drained(s.agents, s.tasks, s.at, a) && a in processed && OnItsWay(s0, s, a, processed[a])
    ensures forall a :: a in all && a !in ended ==> Untouched(s0, s, a)
    ensures |threw| < slots ==> forall a :: a in all ==> a in ended
  {
    hide WorkspaceFrame, Drained, OnItsWay, Untouched;
  }

  lemma NextKeepsFlight(all: set<int>, slots: int, s0: Store, s: Store, fl: Flight)
    requires InFlight(all, slots, s0, s, fl)
    ensures InFlight(all, slots + 1, s0, s, StartNext(fl))
    ensures |StartNext(fl).queue| + |StartNext(fl).active| == |fl.queue| + |fl.active|
    ensures |StartNext(fl).active| == |fl.active| + if fl.queue == [] then 0 else 1
  {
    hide IsFlight;
    if fl.queue == [] {
      SlotsInFlight(all, slots, slots + 1, s0, s, fl.queue, fl.active, fl.ended, fl.threw, fl.processed);
    } else {
      NextInFlight(all, slots, s0, s, fl.queue, fl.active, fl.ended, fl.threw, fl.processed);
      assert |fl.active + {fl.queue[0]}| == |fl.active| + 1;
    }
  }

  // One answer, handled: fewer agents are to be drained, or fewer tasks to be run.
  lemma CallKeepsFlight(all: set<int>, slots: int, s0: Store, s: Store, s': Store, fl: Flight, agentId: int, r: Outcome,
                        at: seq<Try<AgentStatus>>, tt: seq<Try<TaskStatus>>)
    requires InFlight(all, slots, s0, s, fl) && agentId in fl.active
    requires Stepped(s, s', agentId, r, at, tt) && s'.agents.Keys == s.agents.Keys
    requires r.Nothing? ==> Drained(s'.agents, s'.tasks, s'.at, agentId)
    ensures var next := Handled(fl, agentId, r);
      && InFlight(all, slots, s0, s', next)
      && |next.active| <= |fl.active| && |next.queue| + |next.active| <= |fl.queue| + |fl.active|
      && (|next.queue| + |next.active| < |fl.queue| + |fl.active| || |Waiting(s'.tasks)| < |Waiting(s.tasks)|)
      && (next.threw != {} <==> fl.threw != {} || r.Rejected?)
  {
    hide IsFlight, Stepped, Drained, Waiting;
    Shrinks(fl.active, agentId);
    assert |fl.active - {agentId}| == |fl.active| - 1;
    var out := fl.(active := fl.active - {agentId}, ended := fl.ended + [agentId]);
    match r
    case Rejected =>
      ThrownInFlight(all, slots, s0, s, s', agentId, at, tt, fl.queue, fl.active, fl.ended, fl.threw, fl.processed);
    case Nothing =>
      IdleInFlight(all, slots, s0, s, s', agentId, at, tt, fl.queue, fl.active, fl.ended, fl.threw, fl.processed);
      NextKeepsFlight(all, slots - 1, s0, s', out);
    case Settled(task) =>
      SettledInFlight(all, slots, s0, s, s', agentId, task, at, tt, fl.queue, fl.active, fl.ended, fl.threw, fl.processed);
      var taken := fl.processed[agentId := fl.processed[agentId] + [task]];
      if task.status == Failed {
        NextKeepsFlight(all, slots - 1, s0, s', out.(processed := taken));
      }
  }

  // One call, as a step of the stores.
  method CallOnce(o: Office, agentId: int, allowFull: bool)
    returns (r: Outcome, ghost at: seq<Try<AgentStatus>>, ghost tt: seq<Try<TaskStatus>>)
    requires o.Valid()
    modifies o`calls, o`sessions, o`audit, o`lost, o`tasks, o`taskTries, o`agents, o`agentTries, o`launched
    ensures o.Valid() && Stepped(old(StoreOf(o)), StoreOf(o), agentId, r, at, tt)
    ensures StoreOf(o).agents.Keys == old(StoreOf(o)).agents.Keys
    ensures r.Nothing? ==> Drained(o.agents, o.tasks, o.agentTries, agentId)
  {
    hide Settlement, DeniedSettlement, SpawnsClosed, SessionsClosed, LeftBy, IsNext, LostFor, QueuedOf, Grew, Runnable;
    r, at, tt := ProcessNextTask(o, agentId, allowFull);
  }

  lemma NothingInFlight(s: Store, fl: Flight)
    requires (forall i, j :: 0 <= i < j < |fl.queue| ==> fl.queue[i] != fl.queue[j])
    requires forall id :: id in fl.queue <==> id in s.agents
    requires fl == Flight(fl.queue, {}, [], {}, map[])
    ensures InFlight(s.agents.Keys, 0, s, s, fl)
  {
    hide IsFlight;
    NothingStarted(s, fl.queue);
  }

  lemma EnoughSlots(all: set<int>, slots: int, slots': int, s0: Store, s: Store, fl: Flight)
    requires InFlight(all, slots, s0, s, fl) && (fl.queue != [] ==> slots' <= slots)
    ensures InFlight(all, slots', s0, s, fl)
  {
    hide IsFlight;
    SlotsInFlight(all, slots, slots', s0, s, fl.queue, fl.active, fl.ended, fl.threw, fl.processed);
  }

  // How it ends: an agent is drained, or one of its own calls threw, or it was never started; and none is left out
  // unless every slot was lost to a call that threw.
  ghost predicate Landed(s0: Store, s: Store, fl: Flight, maxConcurrent: int) {
    && (forall a :: a in s.agents && a in fl.ended && a !in fl.threw ==>
          && Drained(s.agents, s.tasks, s.at, a)
          && a in fl.processed && OnItsWay(s0, s, a, fl.processed[a]))
    && (forall a :: a in s.agents && a !in fl.ended ==> Untouched(s0, s, a))
    && (|fl.threw| < maxConcurrent ==> forall a :: a in s.agents ==> a in fl.ended)
    && (forall i, j :: 0 <= i < j < |fl.ended| ==> fl.ended[i] != fl.ended[j])
  }

  lemma FlightLands(all: set<int>, slots: int, s0: Store, s: Store, fl: Flight)
    requires InFlight(all, slots, s0, s, fl) && fl.active == {}
    ensures Landed(s0, s, fl, slots) && WorkspaceFrame(s0, s)
  {
    hide WorkspaceFrame, Drained, OnItsWay, Untouched;
    LandedInFlight(all, slots, s0, s, fl.queue, fl.ended, fl.threw, fl.processed);
    assert s.agents.Keys == all;
  }

  /** Drains every agent of the workspace, at most `maxConcurrent` at a time. The drains run side by side: whichever
      is next makes one call of ProcessNextTask. The promise rejects with the first call that throws; the other drains,
      and those they start, go on, and the contract speaks of when they have ended. */
  method RunWorkspace(o: Office, maxConcurrent: int, allowFull: bool)
    returns (rejected: bool, fl: Flight, ghost peak: int)
    requires o.Valid()
    modifies o`calls, o`sessions, o`audit, o`lost, o`tasks, o`taskTries, o`agents, o`agentTries, o`launched
    ensures o.Valid() && WorkspaceFrame(old(StoreOf(o)), StoreOf(o))
    // As many drains at a time as there are slots and agents, and never more.
    ensures !o.fails(old(o.calls)) ==> peak == Max(Min(maxConcurrent, |old(o.agents).Keys|), 0)
    ensures maxConcurrent <= 0 ==> StoreOf(o) == old(StoreOf(o)) && o.launched == old(o.launched)
    ensures fl.threw != {} ==> rejected
    ensures o.fails(old(o.calls)) ==> rejected && StoreOf(o) == old(StoreOf(o)) && o.launched == old(o.launched)
    ensures !o.fails(old(o.calls)) ==>
      Landed(old(StoreOf(o)), StoreOf(o), fl, maxConcurrent) && (rejected <==> fl.threw != {})
  {
    hide NothingStuck, Drained, InFlight, Stepped, WorkspaceFrame, OnItsWay, Untouched, Landed, Handled, Waiting;
    rejected, fl, peak := false, Flight([], {}, [], {}, map[]), 0;
    ghost var start := StoreOf(o);
    UntouchedWorkspace(start);
    var listed := o.ListAgents();
    if listed == None {
      return true, fl, peak;
    }
    var queue := ListInSomeOrder(listed.value);
    fl := fl.(queue := queue);
    ghost var all := listed.value;
    NothingInFlight(start, fl);
    var initial := Max(Min(maxConcurrent, |queue|), 0);
    for i := 0 to initial
      modifies {}
      invariant |fl.active| == i && |fl.queue| == |queue| - i && fl.threw == {}
      invariant InFlight(all, i, start, start, fl)
    {
      NextKeepsFlight(all, i, start, start, fl);
      fl := StartNext(fl);
    }
    EnoughSlots(all, initial, maxConcurrent, start, start, fl);
    peak := initial;
    while fl.active != {}
      invariant o.Valid() && InFlight(all, maxConcurrent, start, StoreOf(o), fl)
      invariant |fl.active| <= peak == initial
      invariant rejected <==> fl.threw != {}
      invariant maxConcurrent <= 0 ==> StoreOf(o) == start && o.launched == old(o.launched)
      decreases |fl.queue| + |fl.active|, |Waiting(o.tasks)|
    {
      ghost var _ := SomeMember(fl.active);
      var agentId :| agentId in fl.active;
      ghost var before := StoreOf(o);
      var r, at, tt := CallOnce(o, agentId, allowFull);
      CallKeepsFlight(all, maxConcurrent, start, before, StoreOf(o), fl, agentId, r, at, tt);
      fl := Handled(fl, agentId, r);
      rejected := rejected || r.Rejected?;
    }
    FlightLands(all, maxConcurrent, start, StoreOf(o), fl);
  }

  lemma UntouchedWorkspace(s: Store)
    ensures WorkspaceFrame(s, s)
  {
  }
}
