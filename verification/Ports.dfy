/** The task records of the queue port. */
module Ports {
  import opened Prelude

  type TaskId = nat
  type AgentId = nat

  datatype TaskStatus = Pending | Processing | Completed | Failed | Cancelled | Expired

  datatype TaskPriority = Critical | High | Normal | Low | Background {
    function Value(): nat {
      match this
      case Critical => 0
      case High => 1
      case Normal => 2
      case Low => 3
      case Background => 4
    }
  }

  /** The fields of a task payload that never change after it is created. */
  datatype Task = Task(
    taskId: TaskId, tenantId: string, targetAgentId: Option<AgentId>, priority: TaskPriority,
    createdAt: real, ttlSeconds: int, maxRetries: int)
  {
    predicate IsExpired(now: real) {
      now - createdAt > ttlSeconds as real
    }
  }

  /** A task payload: the queue and the worker share it, and a retry updates it in place. */
  class TaskPayload {
    const task: Task
    var retryCount: int

    constructor (task: Task, retryCount: int)
      ensures this.task == task && this.retryCount == retryCount
    {
      this.task := task;
      this.retryCount := retryCount;
    }

    predicate CanRetry()
      reads this
    {
      retryCount < task.maxRetries
    }
  }

  datatype TaskResult = TaskResult(
    taskId: TaskId, status: TaskStatus, errorCode: Option<string>, retryCount: int)
}
