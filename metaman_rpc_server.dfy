/** The RPC face of the scheduler's metadata store
    (src/bakapy/metaman_rpc_server.go): each client connection may hold at
    most one record for update, remembered in `pendingUpdate` from the
    connection id to the task id. A nil argument pointer that the source
    dereferences is a panic. */
module MetaRpcServer {
  import opened Common
  import opened Metadata
  import opened MetaStore
  import JsonDir
  import MetaMan

  /** `RPCUpdateArg`: the pointers are options. */
  datatype RPCUpdateArg = RPCUpdateArg(ConnId: Option<string>, TaskId: Option<TaskId>, Metadata: Option<Metadata>)

  /** The runtime panic of dereferencing a nil pointer. */
  const NilDeref: Error := Panic("runtime error: invalid memory address or nil pointer dereference")

  /** The refusal of `Save` from a connection with no pending update; the
      task id in the message is the zero one. */
  const NotLockedByConn: Error := Other(" not locked by this connection")

  /** Why `GetForUpdate` refuses a request before touching the store, in
      the order the checks are made; `None` lets it through. */
  function UpdateRefusal(taskId: Option<TaskId>, connId: Option<string>, pending: map<string, TaskId>): (r: Option<Error>)
    ensures r.None? <==> taskId.Some? && connId.Some? && taskId.value != "" && connId.value != "" &&
                         connId.value !in pending
    ensures taskId.None? ==> r == Some(Other("args.TaskId is nil"))
    ensures taskId.Some? && connId.None? ==> r == Some(Other("args.connId is nil"))
    ensures taskId.Some? && connId.Some? && taskId.value == "" ==> r == Some(Other("args.TaskId must not be blank"))
    ensures taskId.Some? && connId.Some? && taskId.value != "" && connId.value == "" ==>
              r == Some(Other("args.ConnId must not be blank"))
    ensures taskId.Some? && connId.Some? && taskId.value != "" && connId.value != "" && connId.value in pending ==>
              r == Some(Other("this client already take metadata for task id " + taskId.value + " for update"))
  {
    if taskId.None? then Some(Other("args.TaskId is nil"))
    else if connId.None? then Some(Other("args.connId is nil"))
    else if taskId.value == "" then Some(Other("args.TaskId must not be blank"))
    else if connId.value == "" then Some(Other("args.ConnId must not be blank"))
    else if connId.value in pending then
      Some(Other("this client already take metadata for task id " + taskId.value + " for update"))
    else None
  }

  class MetaRPCServer {
    const metaman: MetaMan.MetaMan
    var pendingUpdate: map<string, TaskId>

    constructor (mm: MetaMan.MetaMan)
      ensures metaman == mm && pendingUpdate == map[]
    {
      metaman := mm;
      pendingUpdate := map[];
    }

    /** `Keys`: collect what the store yields, in order. */
    method Keys(dir: seq<string>) returns (reply: seq<TaskId>, panic: Option<Error>)
      requires metaman.rootExists ==> IsListing(metaman.store, dir)
      ensures panic.Some? <==> !metaman.rootExists
      ensures panic.Some? ==> panic == Some(JsonDir.ListFailure(metaman.store.root))
      ensures panic.None? ==> reply == dir && forall k :: k in reply <==> k in metaman.store.records
    {
      var keys;
      keys, panic := metaman.Keys(dir);
      if panic.Some? {
        return [], panic;
      }
      reply := [];
      for i := 0 to |keys|
        invariant reply == keys[..i]
      {
        reply := reply + [keys[i]];
      }
      assert keys[..|keys|] == keys;
    }

    /** `View`: the record, or the store's error and no reply. */
    method View(id: TaskId) returns (reply: Option<Metadata>, err: Option<Error>)
      ensures MetaStore.View(metaman.store, id).Ok? ==> reply == Some(MetaStore.View(metaman.store, id).value) && err.None?
      ensures MetaStore.View(metaman.store, id).Err? ==> reply.None? && err == Some(MetaStore.View(metaman.store, id).error)
    {
      var md, e := metaman.View(id);
      if e.Some? {
        return None, e;
      }
      return Some(md), None;
    }

    /** `Add`: add the record under its own task id. */
    method Add(md: Metadata, f: StoreFaults) returns (err: Option<Error>)
      requires metaman.Valid()
      modifies metaman`store, metaman`rootExists, metaman`taken
      ensures metaman.Valid()
      ensures MetaStore.View(old(metaman.store), md.TaskId).Ok? ==>
                err == Some(JsonDir.AlreadyExists(md.TaskId)) && metaman.store == old(metaman.store) &&
                metaman.rootExists == old(metaman.rootExists) && metaman.taken == old(metaman.taken)
      ensures MetaStore.View(old(metaman.store), md.TaskId).Err? ==>
                (err, metaman.store) == MetaStore.Save(old(metaman.store), md.TaskId, md, f) &&
                metaman.taken == if err.None? then old(metaman.taken) - {md.TaskId} else old(metaman.taken)
    {
      err := metaman.Add(md.TaskId, md, f);
    }

    /** `GetForUpdate`: check the arguments, take the record for update
        and remember it as the connection's pending update. */
    method GetForUpdate(args: RPCUpdateArg) returns (reply: Option<Metadata>, err: Option<Error>)
      requires UpdateRefusal(args.TaskId, args.ConnId, pendingUpdate).None? ==> args.TaskId.value !in metaman.taken
      modifies this`pendingUpdate, metaman`taken
      ensures UpdateRefusal(args.TaskId, args.ConnId, old(pendingUpdate)).Some? ==>
                reply.None? && err == UpdateRefusal(args.TaskId, args.ConnId, old(pendingUpdate)) &&
                pendingUpdate == old(pendingUpdate) && metaman.taken == old(metaman.taken)
      ensures UpdateRefusal(args.TaskId, args.ConnId, old(pendingUpdate)).None? ==>
                var r := MetaStore.View(metaman.store, args.TaskId.value);
                (r.Ok? ==> reply == Some(r.value) && err.None? &&
                           pendingUpdate == old(pendingUpdate)[args.ConnId.value := args.TaskId.value] &&
                           metaman.taken == old(metaman.taken) + {args.TaskId.value}) &&
                (r.Err? ==> reply.None? && err == Some(r.error) &&
                            pendingUpdate == old(pendingUpdate) && metaman.taken == old(metaman.taken))
    {
      var refusal := UpdateRefusal(args.TaskId, args.ConnId, pendingUpdate);
      if refusal.Some? {
        return None, refusal;
      }
      var taskId, connId := args.TaskId.value, args.ConnId.value;
      var r := metaman.getForUpdate(taskId);
      if r.Err? {
        return None, Some(r.error);
      }
      pendingUpdate := pendingUpdate[connId := taskId];
      return Some(r.value), None;
    }

    /** `Save`: only a connection with a pending update may save; its entry
        is dropped and the record is saved under its own task id, which need
        not be the pending one. */
    method Save(args: RPCUpdateArg, f: StoreFaults) returns (err: Option<Error>)
      requires metaman.Valid()
      modifies this`pendingUpdate, metaman`store, metaman`rootExists, metaman`taken
      ensures metaman.Valid()
      ensures args.ConnId.None? || args.ConnId.value !in old(pendingUpdate) ==>
                err == Some(if args.ConnId.None? then NilDeref else NotLockedByConn) &&
                pendingUpdate == old(pendingUpdate) && metaman.store == old(metaman.store) &&
                metaman.taken == old(metaman.taken)
      ensures args.ConnId.Some? && args.ConnId.value in old(pendingUpdate) ==>
                pendingUpdate == old(pendingUpdate) - {args.ConnId.value}
      ensures args.ConnId.Some? && args.ConnId.value in old(pendingUpdate) && args.Metadata.None? ==>
                err == Some(NilDeref) && metaman.store == old(metaman.store) && metaman.taken == old(metaman.taken)
      ensures args.ConnId.Some? && args.ConnId.value in old(pendingUpdate) && args.Metadata.Some? ==>
                var md := args.Metadata.value;
                (err, metaman.store) == MetaStore.Save(old(metaman.store), md.TaskId, md, f) &&
                metaman.taken == if err.None? then old(metaman.taken) - {md.TaskId} else old(metaman.taken)
    {
      if args.ConnId.None? {
        return Some(NilDeref);
      }
      if args.ConnId.value !in pendingUpdate {
        return Some(NotLockedByConn);
      }
      pendingUpdate := pendingUpdate - {args.ConnId.value};
      if args.Metadata.None? {
        return Some(NilDeref);
      }
      err := metaman.save(args.Metadata.value.TaskId, args.Metadata.value, f);
    }

    /** `Remove`: delete the record. */
    method Remove(id: TaskId) returns (err: Option<Error>)
      modifies metaman`store
      ensures (err, metaman.store) == MetaStore.Remove(old(metaman.store), id)
    {
      err := metaman.Remove(id);
    }

    /** `CleanupConn`: release the lock of the connection's pending task,
        if any; the entry itself stays. */
    method CleanupConn(connId: string)
      modifies metaman`taken
      ensures pendingUpdate == old(pendingUpdate)
      ensures connId in pendingUpdate ==> metaman.taken == old(metaman.taken) - {pendingUpdate[connId]}
      ensures connId !in pendingUpdate ==> metaman.taken == old(metaman.taken)
    {
      if connId in pendingUpdate {
        metaman.CancelUpdate(pendingUpdate[connId]);
      }
    }
  }
}
