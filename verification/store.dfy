/** The hosted database reduced to the three tables the core writes, held in
    memory. Each method is one client call; none of them checks anything,
    as the database accepts every write the screens make. */
module Database {
  import opened Domain

  class Store {
    var requests: seq<TravelRecord>
    var workflow: seq<WorkflowEntry>
    var notifications: seq<Notification>

    constructor (rows: seq<TravelRecord>)
      ensures requests == rows && workflow == [] && notifications == []
    {
      requests := rows;
      workflow := [];
      notifications := [];
    }

    /** `insert into travel_requests`. */
    method InsertRequest(r: TravelRecord)
      modifies this
      ensures requests == old(requests) + [r]
      ensures workflow == old(workflow) && notifications == old(notifications)
    {
      requests := requests + [r];
    }

    /** `update travel_requests set status = st where id = id`. */
    method UpdateStatus(id: string, st: Status)
      modifies this
      ensures requests == WithStatus(old(requests), id, st)
      ensures workflow == old(workflow) && notifications == old(notifications)
    {
      requests := WithStatus(requests, id, st);
    }

    /** `insert into approval_workflow`: the log only grows at its end. */
    method AppendWorkflow(e: WorkflowEntry)
      modifies this
      ensures workflow == old(workflow) + [e]
      ensures requests == old(requests) && notifications == old(notifications)
    {
      workflow := workflow + [e];
    }

    /** `insert into notifications`. */
    method InsertNotification(n: Notification)
      modifies this
      ensures notifications == old(notifications) + [n]
      ensures requests == old(requests) && workflow == old(workflow)
    {
      notifications := notifications + [n];
    }
  }
}
