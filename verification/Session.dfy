/**
 internal/control/session.go and identity.go: the refresh protocol over memory, disk and server.

 Every answer of the outside world is an input: server replies, whether a file write succeeds,
 whether waiting was cut short. File writes either replace the whole file or change nothing.
 */
module Sessions {
  import opened Wrappers
  import opened Base64
  import opened Inventories
  import opened Directories
  import opened Versions

  const DEFAULT_VERSION := "0.2.4"
  const SIGNING_KEY_BYTES := 64

  datatype Identity = Identity(clientID: string, signingKey: seq<Byte>, pendingTicket: string)

  datatype IdentityFile = Missing | Unreadable | Stored(identity: Identity)

  datatype Reply = CallFailed | Answer(payload: Payload)

  datatype Approval = BadURL | Rejected | Approved

  /** The outside world's part in one Refresh. */
  datatype World = World(
    sync: Reply, resync: Reply, redeem: Reply, bootstrap: Reply, approval: Approval, waited: bool, access: Reply,
    redeemWrite: bool, lastWrite: bool, rememberSave: bool, clearSave: bool)

  datatype RefreshOptions = RefreshOptions(autoApprove: bool, verificationURL: string)

  /** Requests that reach the network, with the fields the protocol chooses. */
  datatype Request =
    | SyncCall(version: string)
    | AccessCall(ticket: string, version: string)
    | BootstrapCall(version: string)
    | AuthorizeCall(ticket: string)

  datatype Failure =
    | BootstrapFailed | NoDirectory(state: string) | AuthorizeFailed | WaitCancelled
    | AccessFailed | WriteFailed | NeedsAuthorization(ticket: string, url: string)

  datatype State = State(
    identity: Identity, appVersion: string, identityFile: IdentityFile,
    inventoryFile: Option<Inventory>, sent: seq<Request>)

  // ---------- The protocol as functions of the state ----------

  predicate UsableIdentity(id: Identity) {
    |id.signingKey| == SIGNING_KEY_BYTES && id.clientID != ""
  }

  /** inventory.Load: None covers absent, undecodable and invalid files. */
  function LoadInventory(s: State, path: string): Option<Inventory> {
    if path != "" && s.inventoryFile.Some? && Valid(s.inventoryFile.value) then s.inventoryFile else None
  }

  function Call(s: State, request: Request): State {
    s.(sent := s.sent + [request])
  }

  /** persist, with the fact that it returned nil. */
  function Persist(s: State, path: string, inv: Inventory, writes: bool): (State, bool) {
    if path == "" then (s, true)
    else if writes then (s.(inventoryFile := Some(inv)), true)
    else (s, false)
  }

  function SaveTicket(s: State, ticket: string, saves: bool): State {
    var id := s.identity.(pendingTicket := ticket);
    s.(identity := id, identityFile := if saves then Stored(id) else s.identityFile)
  }

  function ClearTicket(s: State, saves: bool): State {
    if s.identity.pendingTicket == "" then s else SaveTicket(s, "", saves)
  }

  /** parseSync: the sync's own directory merged onto a loadable previous one, if that is usable. */
  function ParseSync(s: State, path: string, payload: Payload): Option<Inventory> {
    match Parsed(payload)
    case None => None
    case Some(partial) =>
      var merged := Merge(partial, LoadInventory(s, path));
      if Valid(merged) then Some(merged) else None
  }

  /** What a sync brought: the merged inventory and the directory exactly as the server sent it. */
  datatype Synced = Synced(inv: Inventory, received: Inventory)

  function Usable(s: State, path: string, payload: Payload): Option<Synced> {
    var inv := ParseSync(s, path, payload);
    if inv.None? then None else Some(Synced(inv.value, Parsed(payload).value))
  }

  ghost function TrySync(s: State, path: string, w: World): (State, Option<Synced>) {
    var s1 := Call(s, SyncCall(s.appVersion));
    if w.sync.CallFailed? then (s1, None)
    else
      var got := Usable(s1, path, w.sync.payload);
      var floor := w.sync.payload.minimumVersion;
      if got.Some? then (s1, got)
      else if floor == "" || !Below(s1.appVersion, floor) then (s1, None)
      else
        var s2 := Call(s1.(appVersion := floor), SyncCall(floor));
        if w.resync.CallFailed? then (s2, None)
        else (s2, Usable(s2, path, w.resync.payload))
  }

  /** Complete: an access call whose directory is valid and was written. */
  function Complete(s: State, path: string, ticket: string, reply: Reply, writes: bool): (State, Option<Inventory>) {
    var s1 := Call(s, AccessCall(ticket, s.appVersion));
    if reply.CallFailed? then (s1, None)
    else
      match FullDirectory(reply.payload)
      case None => (s1, None)
      case Some(inv) =>
        var (s2, ok) := Persist(s1, path, inv, writes);
        (s2, if ok then Some(inv) else None)
  }

  datatype Source = Nowhere | FromSync | FromAccess | FromBootstrap

  /**
   `inv` and `failure` are Refresh's two results; both are set when a directory was obtained but
   could not be written. `source` says which call it came from, `received` what the server sent.
   */
  datatype Outcome = Outcome(
    state: State, inv: Option<Inventory>, failure: Option<Failure>, source: Source, received: Option<Inventory>)

  function Failing(s: State, failure: Failure): Outcome {
    Outcome(s, None, Some(failure), Nowhere, None)
  }

  function Written(s: State, path: string, inv: Inventory, writes: bool, source: Source, received: Inventory): Outcome {
    var (s1, ok) := Persist(s, path, inv, writes);
    Outcome(s1, Some(inv), if ok then None else Some(WriteFailed), source, Some(received))
  }

  ghost function Refresh(s: State, path: string, o: RefreshOptions, w: World): Outcome {
    var (s1, synced) := TrySync(s, path, w);
    if synced.Some? then
      Written(s1, path, synced.value.inv, w.lastWrite, FromSync, synced.value.received)
    else if s1.identity.pendingTicket != "" then
      var (s2, redeemed) := Complete(s1, path, s1.identity.pendingTicket, w.redeem, w.redeemWrite);
      if redeemed.Some? then
        Outcome(ClearTicket(s2, w.clearSave), redeemed, None, FromAccess, redeemed)
      else
        Bootstrapped(s2, path, o, w)
    else
      Bootstrapped(s1, path, o, w)
  }

  ghost function Bootstrapped(s: State, path: string, o: RefreshOptions, w: World): Outcome {
    var s1 := Call(s, BootstrapCall(s.appVersion));
    if w.bootstrap.CallFailed? || w.bootstrap.payload.access.None? then Failing(s1, BootstrapFailed)
    else
      var boot := w.bootstrap.payload.access.value;
      match FullDirectory(w.bootstrap.payload)
      case Some(inv) => Written(ClearTicket(s1, w.clearSave), path, inv, w.lastWrite, FromBootstrap, inv)
      case None =>
        if boot.ticket == "" then Failing(s1, NoDirectory(boot.state))
        else
          var s2 := SaveTicket(s1, boot.ticket, w.rememberSave);
          var url := if o.verificationURL != "" then o.verificationURL else w.bootstrap.payload.verificationURL;
          if !o.autoApprove then Failing(s2, NeedsAuthorization(boot.ticket, url))
          else Approving(s2, path, boot, url, w)
  }

  function Approving(s: State, path: string, boot: AccessBlock, url: string, w: World): Outcome {
    if url == "" || w.approval.BadURL? then Failing(s, AuthorizeFailed)
    else
      var s1 := Call(s, AuthorizeCall(boot.ticket));
      if w.approval.Rejected? then Failing(s1, AuthorizeFailed)
      else if boot.retryAfter > 0 && !w.waited then Failing(s1, WaitCancelled)
      else
        var (s2, inv) := Complete(s1, path, boot.ticket, w.access, w.lastWrite);
        if inv.None? then Failing(s2, AccessFailed)
        else Outcome(ClearTicket(s2, w.clearSave), inv, None, FromAccess, inv)
  }

  /** Open: the identity file afterwards and, unless it failed, the identity in use. */
  function OpenIdentity(file: IdentityFile, generated: Identity, saves: bool): (IdentityFile, Option<Identity>) {
    match file
    case Missing => if saves then (Stored(generated), Some(generated)) else (Missing, None)
    case Unreadable => (file, None)
    case Stored(id) => (file, if UsableIdentity(id) then Some(id) else None)
  }

  // ---------- The session object ----------

  class Session {
    const inventoryPath: string
    var identity: Identity
    var appVersion: string
    var identityFile: IdentityFile
    var inventoryFile: Option<Inventory>
    var sent: seq<Request>

    function Now(): State
      reads this
    {
      State(identity, appVersion, identityFile, inventoryFile, sent)
    }

    constructor (path: string, id: Identity, file: IdentityFile, inventoryFile: Option<Inventory>)
      ensures inventoryPath == path
      ensures Now() == State(id, DEFAULT_VERSION, file, inventoryFile, [])
    {
      inventoryPath, identity, appVersion := path, id, DEFAULT_VERSION;
      identityFile, this.inventoryFile, sent := file, inventoryFile, [];
    }

    /** Open on the given disk; `file` is the identity file it leaves behind. */
    static method Open(path: string, disk: IdentityFile, stored: Option<Inventory>, generated: Identity, saves: bool)
      returns (session: Option<Session>, created: bool, file: IdentityFile)
      ensures session.Some? <==> OpenIdentity(disk, generated, saves).1.Some?
      ensures file == OpenIdentity(disk, generated, saves).0
      ensures created <==> disk.Missing? && saves
      ensures session.Some? ==> fresh(session.value) && session.value.inventoryPath == path
      ensures session.Some? ==>
                session.value.Now()
                == State(OpenIdentity(disk, generated, saves).1.value, DEFAULT_VERSION, file, stored, [])
    {
      var id := generated;
      file, created := disk, false;
      match disk {
        case Stored(found) =>
          if !UsableIdentity(found) {
            return None, false, file;
          }
          id := found;
        case Missing =>
          if !saves {
            return None, false, file;
          }
          file, created := Stored(id), true;
        case Unreadable =>
          return None, false, file;
      }
      var s := new Session(path, id, file, stored);
      session := Some(s);
    }

    method Send(request: Request)
      modifies this`sent
      ensures Now() == Call(old(Now()), request)
    {
      sent := sent + [request];
    }

    method PersistInventory(inv: Inventory, writes: bool) returns (ok: bool)
      modifies this`inventoryFile
      ensures (Now(), ok) == Persist(old(Now()), inventoryPath, inv, writes)
    {
      if inventoryPath == "" {
        return true;
      }
      if writes {
        inventoryFile := Some(inv);
      }
      ok := writes;
    }

    method RememberTicket(ticket: string, saves: bool)
      modifies this`identity, this`identityFile
      ensures Now() == SaveTicket(old(Now()), ticket, saves)
    {
      identity := identity.(pendingTicket := ticket);
      if saves {
        identityFile := Stored(identity);
      }
    }

    method ForgetTicket(saves: bool)
      modifies this`identity, this`identityFile
      ensures Now() == ClearTicket(old(Now()), saves)
    {
      if identity.pendingTicket == "" {
        return;
      }
      identity := identity.(pendingTicket := "");
      if saves {
        identityFile := Stored(identity);
      }
    }

    /** Complete: the directory an access call brought and, beside it, whether writing it failed. */
    method CompleteWith(ticket: string, reply: Reply, writes: bool) returns (inv: Option<Inventory>, ok: bool)
      modifies this`sent, this`inventoryFile
      ensures (Now(), if ok then inv else None) == Complete(old(Now()), inventoryPath, ticket, reply, writes)
      ensures inv == if reply.CallFailed? then None else FullDirectory(reply.payload)
      ensures ok <==> inv.Some? && (inventoryPath == "" || writes)
    {
      Send(AccessCall(ticket, appVersion));
      if reply.CallFailed? {
        return None, false;
      }
      inv := ParseInventory(reply.payload);
      if inv.None? {
        return None, false;
      }
      ok := PersistInventory(inv.value, writes);
    }

    method ParseSyncPayload(payload: Payload) returns (inv: Option<Inventory>)
      ensures inv == ParseSync(Now(), inventoryPath, payload)
    {
      var draft := ParseDirectory(payload);
      if draft.None? {
        return None;
      }
      if inventoryPath != "" && inventoryFile.Some? && Valid(inventoryFile.value) {
        draft.value.FillMissingFrom(inventoryFile);
      }
      if !Valid(draft.value.Contents()) {
        return None;
      }
      inv := Some(draft.value.Contents());
    }

    method TrySyncing(w: World) returns (inv: Option<Inventory>)
      modifies this`sent, this`appVersion
      ensures Now() == TrySync(old(Now()), inventoryPath, w).0
      ensures inv.Some? <==> TrySync(old(Now()), inventoryPath, w).1.Some?
      ensures inv.Some? ==> inv.value == TrySync(old(Now()), inventoryPath, w).1.value.inv
    {
      Send(SyncCall(appVersion));
      if w.sync.CallFailed? {
        return None;
      }
      inv := ParseSyncPayload(w.sync.payload);
      if inv.Some? {
        return;
      }
      var floor := w.sync.payload.minimumVersion;
      var below := VersionLess(appVersion, floor);
      if floor == "" || !below {
        return None;
      }
      appVersion := floor;
      Send(SyncCall(appVersion));
      if w.resync.CallFailed? {
        return None;
      }
      inv := ParseSyncPayload(w.resync.payload);
    }

    method RefreshDirectory(o: RefreshOptions, w: World) returns (inv: Option<Inventory>, failure: Option<Failure>)
      modifies this
      ensures Now() == Refresh(old(Now()), inventoryPath, o, w).state
      ensures inv == Refresh(old(Now()), inventoryPath, o, w).inv
      ensures failure == Refresh(old(Now()), inventoryPath, o, w).failure
    {
      inv := TrySyncing(w);
      if inv.Some? {
        var ok := PersistInventory(inv.value, w.lastWrite);
        return inv, if ok then None else Some(WriteFailed);
      }
      var ticket := identity.pendingTicket;
      if ticket != "" {
        var redeemed, ok := CompleteWith(ticket, w.redeem, w.redeemWrite);
        if ok {
          inv := redeemed;
          ForgetTicket(w.clearSave);
          return inv, None;
        }
      }
      inv, failure := BootstrapDirectory(o, w);
    }

    /** The rest of Refresh, from the bootstrap call on. */
    method BootstrapDirectory(o: RefreshOptions, w: World) returns (inv: Option<Inventory>, failure: Option<Failure>)
      modifies this
      ensures Now() == Bootstrapped(old(Now()), inventoryPath, o, w).state
      ensures inv == Bootstrapped(old(Now()), inventoryPath, o, w).inv
      ensures failure == Bootstrapped(old(Now()), inventoryPath, o, w).failure
    {
      Send(BootstrapCall(appVersion));
      if w.bootstrap.CallFailed? || w.bootstrap.payload.access.None? {
        return None, Some(BootstrapFailed);
      }
      var boot := w.bootstrap.payload.access.value;
      inv := ParseInventory(w.bootstrap.payload);
      if inv.Some? {
        ForgetTicket(w.clearSave);
        var ok := PersistInventory(inv.value, w.lastWrite);
        return inv, if ok then None else Some(WriteFailed);
      }
      if boot.ticket == "" {
        return None, Some(NoDirectory(boot.state));
      }
      RememberTicket(boot.ticket, w.rememberSave);
      var verifyURL := o.verificationURL;
      if verifyURL == "" {
        verifyURL := w.bootstrap.payload.verificationURL;
      }
      if !o.autoApprove {
        return None, Some(NeedsAuthorization(boot.ticket, verifyURL));
      }
      inv, failure := ApproveAndComplete(boot, verifyURL, w);
    }

    method ApproveAndComplete(boot: AccessBlock, verifyURL: string, w: World)
      returns (inv: Option<Inventory>, failure: Option<Failure>)
      modifies this
      ensures Now() == Approving(old(Now()), inventoryPath, boot, verifyURL, w).state
      ensures inv == Approving(old(Now()), inventoryPath, boot, verifyURL, w).inv
      ensures failure == Approving(old(Now()), inventoryPath, boot, verifyURL, w).failure
    {
      if verifyURL == "" || w.approval.BadURL? {
        return None, Some(AuthorizeFailed);
      }
      Send(AuthorizeCall(boot.ticket));
      if w.approval.Rejected? {
        return None, Some(AuthorizeFailed);
      }
      if boot.retryAfter > 0 && !w.waited {
        return None, Some(WaitCancelled);
      }
      var ok: bool;
      inv, ok := CompleteWith(boot.ticket, w.access, w.lastWrite);
      if !ok {
        return None, Some(AccessFailed);
      }
      ForgetTicket(w.clearSave);
      failure := None;
    }
  }
}
