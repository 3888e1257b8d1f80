/** The office's stores (agent-office/src/agent-store.ts, task-store.ts, audit-store.ts) and the calls the
    supervisor makes on them, any of which may fail. */
module AgentOffice {
  import opened Prelude

  datatype AgentStatus = Idle | Working | InError | Paused | Stopped
  datatype TaskStatus = Queued | Running | Done | Failed | Canceled
  datatype PermissionMode = Plan | AcceptEdits | Full
  datatype Agent = Agent(id: int, roleId: int, status: AgentStatus, claudeSessionId: Option<string>)
  datatype Task = Task(id: int, agentId: int, status: TaskStatus, queuedAt: int, exitCode: Option<int>)

  datatype AuditKind = Spawn | TaskDone | TaskFailed
  datatype AuditRow = AuditRow(kind: AuditKind, agentId: int, taskId: int, session: string, claudeSessionId: string)

  // How a launched process ended; a process killed on timeout has no code.
  datatype Exit = Exit(code: Option<int>, claudeSessionId: string)

  // An attempt to save an agent or a task, and whether it landed.
  datatype Try<Status> = Try(id: int, status: Status, landed: bool)

  datatype Lost = LostEnd(session: string) | LostAudit(row: AuditRow)

  // The tasks an agent still has to run.
  function QueuedOf(tasks: map<int, Task>, agentId: int): set<int> {
    set id | id in tasks && tasks[id].agentId == agentId && tasks[id].status == Queued
  }

  class Office {
    var agents: map<int, Agent>
    var tasks: map<int, Task>
    var roles: map<int, PermissionMode>
    // Core sessions: true while open.
    var sessions: map<string, bool>
    var audit: seq<AuditRow>
    // The n-th call fails when `fails(n)`; a process it launches ends as `exits(n)`, and an id drawn by it is `newIds(n)`.
    const fails: nat -> bool
    const exits: nat -> Exit
    const newIds: nat -> string
    var calls: nat
    ghost var agentTries: seq<Try<AgentStatus>>
    ghost var taskTries: seq<Try<TaskStatus>>
    ghost var lost: seq<Lost>
    ghost var launched: seq<int>

    ghost predicate Valid()
      reads this
    {
      && (forall id :: id in agents ==> agents[id].id == id)
      && (forall id :: id in tasks ==> tasks[id].id == id)
    }

    method Attempt() returns (ok: bool)
      modifies this`calls
      ensures ok == !fails(old(calls)) && calls == old(calls) + 1
    {
      ok := !fails(calls);
      calls := calls + 1;
    }

    method NewId() returns (id: string)
      modifies this`calls
      ensures id == newIds(old(calls)) && calls == old(calls) + 1
    {
      id := newIds(calls);
      calls := calls + 1;
    }

    method SaveAgent(agent: Agent) returns (ok: bool)
      requires Valid()
      modifies this`calls, this`agents, this`agentTries
      ensures Valid()
      ensures ok == !fails(old(calls)) && calls == old(calls) + 1
      ensures agents == if ok then old(agents)[agent.id := agent] else old(agents)
      ensures agentTries == old(agentTries) + [Try(agent.id, agent.status, ok)]
    {
      ok := Attempt();
      if ok {
        agents := agents[agent.id := agent];
      }
      agentTries := agentTries + [Try(agent.id, agent.status, ok)];
    }

    method SaveTask(task: Task) returns (ok: bool)
      requires Valid()
      modifies this`calls, this`tasks, this`taskTries
      ensures Valid()
      ensures ok == !fails(old(calls)) && calls == old(calls) + 1
      ensures tasks == if ok then old(tasks)[task.id := task] else old(tasks)
      ensures taskTries == old(taskTries) + [Try(task.id, task.status, ok)]
    {
      ok := Attempt();
      if ok {
        tasks := tasks[task.id := task];
      }
      taskTries := taskTries + [Try(task.id, task.status, ok)];
    }

    method LoadAgent(id: int) returns (agent: Option<Agent>)
      requires Valid()
      modifies this`calls
      ensures calls == old(calls) + 1
      ensures agent == if !fails(old(calls)) && id in agents then Some(agents[id]) else None
    {
      var ok := Attempt();
      agent := if ok && id in agents then Some(agents[id]) else None;
    }

    method LoadRole(id: int) returns (mode: Option<PermissionMode>)
      modifies this`calls
      ensures calls == old(calls) + 1
      ensures mode == if !fails(old(calls)) && id in roles then Some(roles[id]) else None
    {
      var ok := Attempt();
      mode := if ok && id in roles then Some(roles[id]) else None;
    }

    // The ids of an agent's queued tasks, read in one listing.
    method ListQueued(agentId: int) returns (queued: Option<set<int>>)
      modifies this`calls
      ensures calls == old(calls) + 1
      ensures queued == if !fails(old(calls)) then Some(QueuedOf(tasks, agentId)) else None
    {
      var ok := Attempt();
      queued := if ok then Some(QueuedOf(tasks, agentId)) else None;
    }

    method ListAgents() returns (ids: Option<set<int>>)
      modifies this`calls
      ensures ids == if !fails(old(calls)) then Some(agents.Keys) else None
    {
      var ok := Attempt();
      ids := if ok then Some(agents.Keys) else None;
    }

    method CreateSession(id: string) returns (ok: bool)
      modifies this`calls, this`sessions
      ensures sessions == if ok then old(sessions)[id := true] else old(sessions)
      ensures ok == (!fails(old(calls)) && id !in old(sessions)) && calls == old(calls) + 1
    {
      ok := Attempt();
      ok := ok && id !in sessions;
      if ok {
        sessions := sessions[id := true];
      }
    }

    // Ending a session twice, or one that does not exist, fails.
    method EndSession(id: string) returns (ok: bool)
      modifies this`calls, this`sessions, this`lost
      ensures sessions == if ok then old(sessions)[id := false] else old(sessions)
      ensures ok == (!fails(old(calls)) && id in old(sessions) && old(sessions)[id]) && calls == old(calls) + 1
      ensures lost == if ok then old(lost) else old(lost) + [LostEnd(id)]
    {
      ok := Attempt();
      ok := ok && id in sessions && sessions[id];
      if ok {
        sessions := sessions[id := false];
      } else {
        lost := lost + [LostEnd(id)];
      }
    }

    method AppendAudit(row: AuditRow) returns (ok: bool)
      modifies this`calls, this`audit, this`lost
      ensures ok == !fails(old(calls)) && calls == old(calls) + 1
      ensures audit == if ok then old(audit) + [row] else old(audit)
      ensures lost == if ok then old(lost) else old(lost) + [LostAudit(row)]
    {
      ok := Attempt();
      if ok {
        audit := audit + [row];
      } else {
        lost := lost + [LostAudit(row)];
      }
    }

    /** What must hold whenever a process is started: the task runs, the agent works, the role's mode is
        permitted, the session is open, and the spawn is on record. */
    ghost predicate MayLaunch(agentId: int, taskId: int, session: string, allowFull: bool)
      reads this
    {
      && agentId in agents && agents[agentId].status == Working
      && taskId in tasks && tasks[taskId].status == Running && tasks[taskId].agentId == agentId
      && agents[agentId].roleId in roles && (roles[agents[agentId].roleId] == Full ==> allowFull)
      && session in sessions && sessions[session]
      && exists i :: 0 <= i < |audit| && audit[i].kind == Spawn && audit[i].agentId == agentId
           && audit[i].taskId == taskId && audit[i].session == session
    }

    method Launch(agentId: int, taskId: int, session: string, ghost allowFull: bool) returns (exit: Option<Exit>)
      requires MayLaunch(agentId, taskId, session, allowFull)
      modifies this`calls, this`launched
      ensures launched == old(launched) + [taskId]
      ensures exit == if !fails(old(calls)) then Some(exits(old(calls))) else None
      ensures calls == old(calls) + 1
    {
      var ok := Attempt();
      exit := if ok then Some(exits(calls - 1)) else None;
      launched := launched + [taskId];
    }
  }
}
