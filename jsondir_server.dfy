/** The RPC server of the metadata daemon
    (src/bakapy-metaman/jsondir_server.go) over a `JSONDir` store: the same
    per-connection pending updates as the scheduler's RPC server, an
    `AddFile` call that appends one file entry to a record, and the
    handshake that admits a connection. */
module JsonDirServer {
  import opened Common
  import opened Codec
  import opened Metadata
  import opened MetaStore
  import opened Stream
  import opened Text
  import JsonDir
  import opened MetaRpcServer

  /** `RPCUpdateArg` of this server: the pointers are options. */
  datatype UpdateArg = UpdateArg(ConnId: Option<string>, TaskId: Option<TaskId>,
                                 Metadata: Option<Metadata>, FileMeta: Option<FileEntry>)

  /** The nil UUID (section 4.1.7 of RFC 4122), the reply to a client that
      fails to authenticate. */
  const NilUUID: string := "00000000-0000-0000-0000-000000000000"

  /** The length of the authentication request: a hex SHA-256 digest. */
  const AuthRequestLen: nat := 64

  /** How the handshake ends: the connection is closed with no reply,
      closed after the nil UUID, or served under a connection id. */
  datatype Handshake = Dropped | Refused(reply: string) | Served(connId: string)

  /** The handshake of `Serve` for one accepted connection: read 64 bytes
      and compare them with `digest`, the hex SHA-256 of the secret. A
      short read drops the connection; a mismatch is answered with the
      nil UUID; otherwise the fresh `connId` is sent, and a failed send
      drops the connection. */
  function Authenticate(conn: Source, digest: string, connId: string, sendErr: Option<Error>): (h: Handshake)
    requires |connId| == 36 && connId != NilUUID
    ensures h.Served? <==> |conn.data| >= AuthRequestLen &&
                           BytesToString(conn.data[..AuthRequestLen]) == digest && sendErr.None?
    ensures h.Refused? <==> |conn.data| >= AuthRequestLen && BytesToString(conn.data[..AuthRequestLen]) != digest
    ensures h.Refused? ==> h.reply == NilUUID
    ensures h.Served? ==> h.connId == connId && |h.connId| == 36 && h.connId != NilUUID
  {
    match ReadFull(conn, AuthRequestLen)
    case Failed(_, _) => Dropped
    case Read(authRequest, _) =>
      if BytesToString(authRequest) != digest then Refused(NilUUID)
      else if sendErr.Some? then Dropped
      else Served(connId)
  }

  /** Only a client that sends the digest is served: whatever follows the
      first 64 bytes of the connection plays no part. */
  lemma ServedOnlyWithDigest(conn: Source, digest: string, connId: string, sendErr: Option<Error>)
    requires |connId| == 36 && connId != NilUUID
    requires Authenticate(conn, digest, connId, sendErr).Served?
    ensures |digest| == AuthRequestLen
    ensures forall rest: seq<byte>, end: End ::
              Authenticate(Source(conn.data[..AuthRequestLen] + rest, end), digest, connId, sendErr).Served?
  {
    forall rest: seq<byte>, end: End
      ensures Authenticate(Source(conn.data[..AuthRequestLen] + rest, end), digest, connId, sendErr).Served?
    {
      var c := Source(conn.data[..AuthRequestLen] + rest, end);
      assert c.data[..AuthRequestLen] == conn.data[..AuthRequestLen];
    }
  }

  class JSONDirServer {
    const metaman: JsonDir.JSONDir
    var pendingUpdate: map<string, TaskId>

    constructor (store: JsonDir.JSONDir)
      ensures metaman == store && pendingUpdate == map[]
    {
      metaman := store;
      pendingUpdate := map[];
    }

    /** `Keys`: collect what the store yields, in order. */
    method Keys(dir: seq<string>) returns (reply: seq<TaskId>, panic: Option<Error>)
      requires metaman.rootExists ==> IsListing(metaman.store, dir)
      ensures panic.Some? <==> !metaman.rootExists
      ensures panic.Some? ==> panic == Some(JsonDir.ListFailure(metaman.store.root))
      ensures panic.None? ==> reply == dir && forall k :: k in reply <==> k in metaman.store.records
    {
      var keys;
      keys, panic := metaman.Keys(dir);
      if panic.Some? {
        return [], panic;
      }
      reply := [];
      for i := 0 to |keys|
        invariant reply == keys[..i]
      {
        reply := reply + [keys[i]];
      }
      assert keys[..|keys|] == keys;
    }

    /** `View`: the record, or the store's error and no reply. */
    method View(id: TaskId) returns (reply: Option<Metadata>, err: Option<Error>)
      ensures MetaStore.View(metaman.store, id).Ok? ==> reply == Some(MetaStore.View(metaman.store, id).value) && err.None?
      ensures MetaStore.View(metaman.store, id).Err? ==> reply.None? && err == Some(MetaStore.View(metaman.store, id).error)
    {
      var md, e := metaman.View(id);
      if e.Some? {
        return None, e;
      }
      return Some(md), None;
    }

    /** `Add`: add the record under its own task id. */
    method Add(md: Metadata, f: StoreFaults) returns (err: Option<Error>)
      requires metaman.Valid() && !metaman.Held(md.TaskId)
      modifies metaman`store, metaman`rootExists, metaman`taken
      ensures metaman.Valid()
      ensures MetaStore.View(old(metaman.store), md.TaskId).Ok? ==>
                err == Some(JsonDir.AlreadyExists(md.TaskId)) && metaman.store == old(metaman.store) &&
                metaman.rootExists == old(metaman.rootExists) &&
                metaman.taken == old(metaman.taken)[md.TaskId := true]
      ensures MetaStore.View(old(metaman.store), md.TaskId).Err? ==>
                (err, metaman.store) == MetaStore.Save(old(metaman.store), md.TaskId, md, f) &&
                metaman.taken == old(metaman.taken)[md.TaskId := false]
    {
      err := metaman.Add(md.TaskId, md, f);
    }

    /** `GetForUpdate`: check the arguments, take the record for update
        and remember it as the connection's pending update. */
    method GetForUpdate(args: UpdateArg) returns (reply: Option<Metadata>, err: Option<Error>)
      requires UpdateRefusal(args.TaskId, args.ConnId, pendingUpdate).None? ==> !metaman.Held(args.TaskId.value)
      modifies this`pendingUpdate, metaman`taken
      ensures UpdateRefusal(args.TaskId, args.ConnId, old(pendingUpdate)).Some? ==>
                reply.None? && err == UpdateRefusal(args.TaskId, args.ConnId, old(pendingUpdate)) &&
                pendingUpdate == old(pendingUpdate) && metaman.taken == old(metaman.taken)
      ensures UpdateRefusal(args.TaskId, args.ConnId, old(pendingUpdate)).None? ==>
                var r := MetaStore.View(metaman.store, args.TaskId.value);
                (r.Ok? ==> reply == Some(r.value) && err.None? &&
                           pendingUpdate == old(pendingUpdate)[args.ConnId.value := args.TaskId.value] &&
                           metaman.taken == old(metaman.taken)[args.TaskId.value := true]) &&
                (r.Err? ==> reply.None? && err == Some(r.error) && pendingUpdate == old(pendingUpdate) &&
                            metaman.taken == old(metaman.taken)[args.TaskId.value := false])
    {
      var refusal := UpdateRefusal(args.TaskId, args.ConnId, pendingUpdate);
      if refusal.Some? {
        return None, refusal;
      }
      var taskId, connId := args.TaskId.value, args.ConnId.value;
      var r := metaman.GetForUpdate(taskId);
      if r.Err? {
        return None, Some(r.error);
      }
      pendingUpdate := pendingUpdate[connId := taskId];
      return Some(r.value), None;
    }

    /** `Save`: only a connection with a pending update may save; its entry
        is dropped and the record is saved under its own task id, whose
        lock the store then releases, which need not be the pending one. */
    method Save(args: UpdateArg, f: StoreFaults) returns (err: Option<Error>)
      requires metaman.Valid()
      modifies this`pendingUpdate, metaman`store, metaman`rootExists, metaman`taken
      ensures metaman.Valid()
      ensures args.ConnId.None? || args.ConnId.value !in old(pendingUpdate) ==>
                err == Some(if args.ConnId.None? then NilDeref else NotLockedByConn) &&
                pendingUpdate == old(pendingUpdate) && metaman.store == old(metaman.store) &&
                metaman.taken == old(metaman.taken)
      ensures args.ConnId.Some? && args.ConnId.value in old(pendingUpdate) ==>
                pendingUpdate == old(pendingUpdate) - {args.ConnId.value}
      ensures args.ConnId.Some? && args.ConnId.value in old(pendingUpdate) && args.Metadata.None? ==>
                err == Some(NilDeref) && metaman.store == old(metaman.store) && metaman.taken == old(metaman.taken)
      ensures args.ConnId.Some? && args.ConnId.value in old(pendingUpdate) && args.Metadata.Some? ==>
                var md := args.Metadata.value;
                metaman.store == MetaStore.Save(old(metaman.store), md.TaskId, md, f).1 &&
                (old(metaman.Held(md.TaskId)) ==>
                   err == MetaStore.Save(old(metaman.store), md.TaskId, md, f).0 &&
                   metaman.taken == old(metaman.taken)[md.TaskId := false]) &&
                (!old(metaman.Held(md.TaskId)) ==> err.Some? && err.value.Panic? && metaman.taken == old(metaman.taken))
    {
      if args.ConnId.None? {
        return Some(NilDeref);
      }
      if args.ConnId.value !in pendingUpdate {
        return Some(NotLockedByConn);
      }
      pendingUpdate := pendingUpdate - {args.ConnId.value};
      if args.Metadata.None? {
        return Some(NilDeref);
      }
      err := metaman.Save(args.Metadata.value.TaskId, args.Metadata.value, f);
    }

    /** `AddFile`: append one file entry to the record under the record's
        lock and save it. Pending updates are not consulted. */
    method AddFile(args: UpdateArg, f: StoreFaults) returns (err: Option<Error>)
      requires metaman.Valid()
      requires args.FileMeta.Some? && args.TaskId.Some? ==> !metaman.Held(args.TaskId.value)
      modifies metaman`store, metaman`rootExists, metaman`taken
      ensures metaman.Valid()
      ensures pendingUpdate == old(pendingUpdate)
      ensures args.FileMeta.None? ==>
                err == Some(Other("args.FileMeta required")) && metaman.store == old(metaman.store) &&
                metaman.taken == old(metaman.taken)
      ensures args.FileMeta.Some? && args.TaskId.None? ==>
                err == Some(Other("args.TaskId required")) && metaman.store == old(metaman.store) &&
                metaman.taken == old(metaman.taken)
      ensures args.FileMeta.Some? && args.TaskId.Some? ==>
                var id := args.TaskId.value;
                var r := MetaStore.View(old(metaman.store), id);
                metaman.taken == old(metaman.taken)[id := false] &&
                (r.Err? ==> err == Some(r.error) && metaman.store == old(metaman.store)) &&
                (r.Ok? ==> (err, metaman.store) ==
                             MetaStore.Save(old(metaman.store), id,
                                            r.value.(Files := r.value.Files + [args.FileMeta.value]), f))
    {
      if args.FileMeta.None? {
        return Some(Other("args.FileMeta required"));
      }
      if args.TaskId.None? {
        return Some(Other("args.TaskId required"));
      }
      var fm := args.FileMeta.value;
      var id := args.TaskId.value;
      var r := metaman.GetForUpdate(id);
      if r.Err? {
        return Some(r.error);
      }
      var md := r.value.(Files := r.value.Files + [fm]);
      err := metaman.Save(id, md, f);
    }

    /** `Remove`: delete the record under its lock. */
    method Remove(id: TaskId) returns (err: Option<Error>)
      requires metaman.Valid() && !metaman.Held(id)
      modifies metaman`store, metaman`taken
      ensures metaman.Valid()
      ensures (err, metaman.store) == MetaStore.Remove(old(metaman.store), id)
      ensures metaman.taken == old(metaman.taken)[id := false]
    {
      err := metaman.Remove(id);
    }

    /** `CleanupConn`: release the lock of the connection's pending task,
        if any; the entry itself stays. */
    method CleanupConn(connId: string) returns (panic: Option<Error>)
      modifies metaman`taken
      ensures pendingUpdate == old(pendingUpdate)
      ensures connId !in pendingUpdate ==> panic.None? && metaman.taken == old(metaman.taken)
      ensures connId in pendingUpdate && old(metaman.Held(pendingUpdate[connId])) ==>
                panic.None? && metaman.taken == old(metaman.taken)[pendingUpdate[connId] := false]
      ensures connId in pendingUpdate && !old(metaman.Held(pendingUpdate[connId])) ==>
                panic.Some? && metaman.taken == old(metaman.taken)
    {
      panic := None;
      if connId in pendingUpdate {
        panic := metaman.CancelUpdate(pendingUpdate[connId]);
      }
    }
  }

  /** A fault-free `AddFile` leaves the record as the metadata store's
      `AddFile` does. */
  lemma AddFileAgrees(s: Store, id: TaskId, entry: FileEntry)
    requires View(s, id).Ok?
    ensures var md := View(s, id).value;
            View(Save(s, id, md.(Files := md.Files + [entry]), NoFaults).1, id) ==
            View(MetaStore.AddFile(s, id, entry, None).1, id)
  {
    var md := View(s, id).value;
    SaveThenView(s, id, md.(Files := md.Files + [entry]));
    AddFileThenView(s, id, entry);
  }
}
