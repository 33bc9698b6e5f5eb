/**
 * ODistributedCoordinator: the per-database owner of the table of in-flight
 * request contexts (keyed by log identifier) and of the membership set.
 *
 * The request executor is modelled as immediate sequential execution. The
 * collaborators the class only calls are recorded instead of run: the operation
 * log hands out identifiers through the oracle `assignId` and keeps the logged
 * requests, the network keeps an outbox of the calls made to it, and a request
 * context keeps the responses handed to it.
 */
module Coordinator {
  import opened Wrappers
  import opened Identities
  import LogIds

  /** Requests, responses and handlers are opaque to the coordinator. */
  datatype SubmitRequest = SubmitRequest(token: nat)
  datatype SubmitResponse = SubmitResponse(token: nat)
  datatype NodeRequest = NodeRequest(token: nat)
  datatype NodeResponse = NodeResponse(token: nat)
  datatype ResponseHandler = ResponseHandler(token: nat)

  /** Calls made to ODistributedNetwork. */
  datatype NetworkCall =
    | SendRequest(members: set<NodeId>, database: string, id: LogIds.LogId, request: NodeRequest)
    | Replay(member: NodeId, database: string, operationId: SessionOperationId, response: SubmitResponse)

  /** The call `submit` hands to the executor: `request.begin(member, operationId, this)`. */
  datatype BeginCall = BeginCall(member: NodeId, operationId: SessionOperationId, request: SubmitRequest)

  /**
   * ORequestContext, whose code is not part of this model: what it was created
   * with, and the responses `receive` handed to it.
   */
  class RequestContext {
    const submitRequest: SubmitRequest
    const nodeRequest: NodeRequest
    const members: set<NodeId>
    const handler: ResponseHandler
    const requestId: LogIds.LogId
    var responses: seq<(NodeId, NodeResponse)>

    constructor (submitRequest: SubmitRequest, nodeRequest: NodeRequest, members: set<NodeId>,
                 handler: ResponseHandler, requestId: LogIds.LogId)
      ensures this.submitRequest == submitRequest && this.nodeRequest == nodeRequest
      ensures this.members == members && this.handler == handler && this.requestId == requestId
      ensures responses == []
    {
      this.submitRequest := submitRequest;
      this.nodeRequest := nodeRequest;
      this.members := members;
      this.handler := handler;
      this.requestId := requestId;
      responses := [];
    }

    method Receive(member: NodeId, response: NodeResponse)
      modifies this
      ensures responses == old(responses) + [(member, response)]
    {
      responses := responses + [(member, response)];
    }
  }

  class DistributedCoordinator {
    const database: string
    /** The identifier the operation log returns for its n-th `log` call. */
    const assignId: nat -> LogIds.LogId
    var logged: seq<NodeRequest>
    var contexts: map<LogIds.LogId, RequestContext>
    var members: set<NodeId>
    var outbox: seq<NetworkCall>

    /** Every context is registered under its own request identifier. */
    ghost predicate Valid()
      reads this
    {
      forall k :: k in contexts ==> contexts[k].requestId == k
    }

    constructor (database: string, assignId: nat -> LogIds.LogId)
      ensures Valid()
      ensures this.database == database && this.assignId == assignId
      ensures logged == [] && contexts == map[] && members == {} && outbox == []
    {
      this.database := database;
      this.assignId := assignId;
      logged := [];
      contexts := map[];
      members := {};
      outbox := [];
    }

    /** `submit`: runs `request.begin(member, operationId, this)` and nothing else. */
    method Submit(member: NodeId, operationId: SessionOperationId, request: SubmitRequest)
      returns (call: BeginCall)
      ensures call.member == member && call.operationId == operationId && call.request == request
    {
      call := BeginCall(member, operationId, request);
    }

    /** `reply`: passes the response to the network's `replay` for this database. */
    method Reply(member: NodeId, operationId: SessionOperationId, response: SubmitResponse)
      modifies this`outbox
      ensures outbox == old(outbox) + [Replay(member, database, operationId, response)]
    {
      outbox := outbox + [Replay(member, database, operationId, response)];
    }

    /**
     * `receive`: `contexts.get(relativeRequest).receive(member, response)`. There is
     * no presence check: an unknown identifier is a NullPointerException, and then
     * nothing changes.
     */
    method Receive(member: NodeId, relativeRequest: LogIds.LogId, response: NodeResponse)
      returns (failure: Option<Exception>)
      requires Valid()
      modifies if relativeRequest in contexts then {contexts[relativeRequest]} else {}
      ensures failure.Some? <==> relativeRequest !in contexts
      ensures failure.Some? ==> failure.value == NullDereference
      ensures relativeRequest in contexts ==>
        contexts[relativeRequest].responses == old(contexts[relativeRequest].responses) + [(member, response)]
      ensures forall k :: k in contexts && k != relativeRequest ==> contexts[k].responses == old(contexts[k].responses)
    {
      if relativeRequest !in contexts {
        failure := Some(NullDereference);
        return;
      }
      contexts[relativeRequest].Receive(member, response);
      failure := None;
    }

    /** `log`: the operation log records the request and returns its identifier. */
    method Log(request: NodeRequest) returns (id: LogIds.LogId)
      modifies this`logged
      ensures id == assignId(|old(logged)|)
      ensures logged == old(logged) + [request]
    {
      id := assignId(|logged|);
      logged := logged + [request];
    }

    /**
     * `sendOperation`: logs the node request, snapshots the members, registers a
     * new context under the logged identifier (replacing any context already
     * there) and sends the request once, to exactly that snapshot.
     */
    method SendOperation(submitRequest: SubmitRequest, nodeRequest: NodeRequest, handler: ResponseHandler)
      returns (context: RequestContext)
      requires Valid()
      modifies this`logged, this`contexts, this`outbox
      ensures Valid()
      ensures logged == old(logged) + [nodeRequest]
      ensures fresh(context) && context.requestId == assignId(|old(logged)|)
      ensures context.members == members == old(members)
      ensures context.submitRequest == submitRequest && context.nodeRequest == nodeRequest
      ensures context.handler == handler && context.responses == []
      ensures contexts == old(contexts)[context.requestId := context]
      ensures outbox == old(outbox) + [SendRequest(old(members), database, context.requestId, nodeRequest)]
    {
      var id := Log(nodeRequest);
      var values := members;
      context := new RequestContext(submitRequest, nodeRequest, values, handler, id);
      contexts := contexts[id := context];
      outbox := outbox + [SendRequest(values, database, id, nodeRequest)];
    }

    /** `join`: adds the node to the members; contexts keep their own snapshots. */
    method Join(nodeIdentity: NodeId)
      modifies this`members
      ensures members == old(members) + {nodeIdentity}
    {
      members := members + {nodeIdentity};
    }

    /** `leave`: removes the node from the members. */
    method Leave(nodeIdentity: NodeId)
      modifies this`members
      ensures members == old(members) - {nodeIdentity}
    {
      members := members - {nodeIdentity};
    }

    /** `finish`: drops the context of `requestId`, if there is one. */
    method Finish(requestId: LogIds.LogId)
      requires Valid()
      modifies this`contexts
      ensures Valid()
      ensures contexts == old(contexts) - {requestId}
    {
      contexts := contexts - {requestId};
    }
  }

  /**
   * Members that join or leave after a request was sent do not change the
   * context's snapshot, and joining or leaving twice is the same as once.
   */
  method SnapshotIsKept(a: NodeId, b: NodeId, first: LogIds.LogId) returns (snapshot: set<NodeId>, current: set<NodeId>)
    requires a != b
    ensures snapshot == {a} && current == {b}
  {
    var coordinator := new DistributedCoordinator("db", (n: nat) => first);
    coordinator.Join(a);
    coordinator.Join(a);
    var context := coordinator.SendOperation(SubmitRequest(0), NodeRequest(0), ResponseHandler(0));
    coordinator.Join(b);
    coordinator.Leave(a);
    coordinator.Leave(a);
    snapshot, current := context.members, coordinator.members;
  }

  /**
   * A response for a finished request is not ignored: the lookup yields null and
   * `receive` throws.
   */
  method ReceiveAfterFinish(member: NodeId, first: LogIds.LogId, response: NodeResponse)
    returns (failure: Option<Exception>)
    ensures failure == Some(NullDereference)
  {
    var coordinator := new DistributedCoordinator("db", (n: nat) => first);
    coordinator.Join(member);
    var context := coordinator.SendOperation(SubmitRequest(0), NodeRequest(0), ResponseHandler(0));
    failure := coordinator.Receive(member, first, response);
    assert failure == None;
    coordinator.Finish(first);
    failure := coordinator.Receive(member, first, response);
  }
}
