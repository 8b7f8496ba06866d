/** The agent's objects, one call at a time: agent/internal/config/state.go,
    agent/internal/frpc/process.go, agent/internal/sync/sync.go, agent/internal/publish/publish.go
    and agent/internal/heartbeat/heartbeat.go. */
module Agent {
  import opened Options
  import opened Data
  import Frpc

  // The state file.

  datatype Snapshot = Snapshot(gatewayId: string, secret: string, version: nat)

  /** What stands in a file. */
  datatype StateFile = Missing | Torn | Whole(snapshot: Snapshot)

  /** How far `Save` gets: nothing written; a temporary file cut short; no rename; all of it. */
  datatype SaveFault = NoDirectory | ShortWrite | NoRename | SaveOk

  class State {
    var gatewayId: string
    var secret: string
    var version: nat
    const path: string
    var disk: StateFile           // the file at `path`
    var temp: StateFile           // its temporary sibling
    ghost var seen: seq<StateFile>  // every content `path` has had, oldest first: the crash points

    ghost predicate Valid()
      reads this
    {
      seen != [] && seen[|seen| - 1] == disk
    }

    ghost function Memory(): Snapshot
      reads this
    {
      Snapshot(gatewayId, secret, version)
    }

    /** `LoadState`: a missing file gives an unregistered state, a damaged one an error. */
    static method Load(path: string, disk: StateFile) returns (s: State?)
      ensures s == null <==> disk.Torn?
      ensures s != null ==> fresh(s) && s.Valid() && s.path == path && s.disk == disk
      ensures s != null ==> s.Memory() == if disk.Whole? then disk.snapshot else Snapshot("", "", 0)
    {
      match disk
      case Torn => return null;
      case Missing => s := new State(path, disk, Snapshot("", "", 0));
      case Whole(found) => s := new State(path, disk, found);
    }

    constructor (path: string, disk: StateFile, memory: Snapshot)
      ensures Valid() && this.path == path && this.disk == disk && Memory() == memory
    {
      this.path, this.disk, temp := path, disk, Missing;
      gatewayId, secret, version := memory.gatewayId, memory.secret, memory.version;
      seen := [disk];
    }

    /** Writes the temporary file, then renames it over the state file. */
    method Save(fault: SaveFault) returns (ok: bool)
      requires Valid()
      modifies this
      ensures Valid() && Memory() == old(Memory())
      ensures ok <==> path != "" && fault.SaveOk?
      ensures disk == if ok then Whole(Memory()) else old(disk)
      ensures old(seen) <= seen
      ensures forall k :: |old(seen)| <= k < |seen| ==> seen[k] == old(disk) || seen[k] == Whole(Memory())
    {
      var snapshot := Snapshot(gatewayId, secret, version);
      if path == "" { return false; }
      if fault.NoDirectory? { return false; }
      temp := Torn;
      seen := seen + [disk];
      if fault.ShortWrite? { return false; }
      temp := Whole(snapshot);
      seen := seen + [disk];
      if fault.NoRename? { return false; }
      disk, temp := temp, Missing;
      seen := seen + [disk];
      return true;
    }

    /** Memory changes first; a failed save leaves it ahead of the disk. */
    method SetConfigVersion(v: nat, fault: SaveFault) returns (ok: bool)
      requires Valid()
      modifies this
      ensures Valid() && Memory() == old(Memory()).(version := v)
      ensures ok <==> path != "" && fault.SaveOk?
      ensures disk == if ok then Whole(Memory()) else old(disk)
      ensures old(seen) <= seen
      ensures forall k :: |old(seen)| <= k < |seen| ==> seen[k] == old(disk) || seen[k] == Whole(Memory())
    {
      version := v;
      ok := Save(fault);
    }
  }

  // The frpc process.

  /** `config` is the text the process read when it started, if the file was there; `done` once it
      has exited. */
  datatype ManagedProc = ManagedProc(config: Option<string>, done: bool)

  /** The first thing that goes wrong in `Apply`. */
  datatype ApplyFault = NoWorkDir | NoTempFile | Rejected | NoInstall | NoBinary | NoStart | ApplyOk

  predicate BeforeRename(f: ApplyFault) { f.NoWorkDir? || f.NoTempFile? || f.Rejected? || f.NoInstall? }

  class Manager {
    var file: Option<string>          // frpc.toml
    var temp: Option<string>          // frpc.toml.tmp
    var current: Option<ManagedProc>

    constructor ()
      ensures file.None? && current.None? && Launched()
    {
      file, temp, current := None, None, None;
    }

    predicate IsRunning()
      reads this
    {
      current.Some? && !current.value.done
    }

    /** The text the running frpc works with. */
    function Running(): Option<string>
      reads this
    {
      if IsRunning() then current.value.config else None
    }

    /** The current process, if any, was started from an installed file. */
    predicate Launched()
      reads this
    {
      current.Some? ==> current.value.config.Some?
    }

    /** Installs the text atomically, after `frpc verify` had a look at it. */
    method WriteConfig(content: string, fault: ApplyFault) returns (ok: bool)
      modifies this
      ensures ok <==> !BeforeRename(fault)
      ensures file == if ok then Some(content) else old(file)
      ensures current == old(current)
    {
      if fault.NoWorkDir? { return false; }
      if fault.NoTempFile? { return false; }
      temp := Some(content);
      if fault.Rejected? {
        temp := None;
        return false;
      }
      if fault.NoInstall? { return false; }
      file, temp := temp, None;
      return true;
    }

    method StopLocked()
      modifies this
      ensures current.None? && file == old(file)
    {
      if current.None? { return; }
      if !IsRunning() {
        current := None;
        return;
      }
      current := Some(current.value.(done := true));
      current := None;
    }

    method StartLocked(fault: ApplyFault) returns (ok: bool)
      modifies this
      ensures ok <==> !fault.NoBinary? && !fault.NoStart?
      ensures file == old(file)
      ensures current == if ok then Some(ManagedProc(file, false)) else old(current)
    {
      if fault.NoBinary? { return false; }
      if fault.NoStart? { return false; }
      current := Some(ManagedProc(file, false));
      return true;
    }

    /** A config that is not installed touches nothing; once installed, the old process is gone
        and the new one, if it starts, has read exactly this text. */
    method Apply(content: string, fault: ApplyFault) returns (ok: bool)
      modifies this
      ensures ok <==> fault.ApplyOk?
      ensures file == if BeforeRename(fault) then old(file) else Some(content)
      ensures BeforeRename(fault) ==> current == old(current)
      ensures !BeforeRename(fault) ==> Running() == if ok then Some(content) else None
      ensures old(Launched()) ==> Launched()
    {
      ok := WriteConfig(content, fault);
      if !ok { return; }
      StopLocked();
      ok := StartLocked(fault);
    }

    /** The process ends by itself. */
    method Exit()
      modifies this
      ensures file == old(file) && !IsRunning() && Running().None?
      ensures old(Launched()) ==> Launched()
    {
      if current.Some? { current := Some(current.value.(done := true)); }
    }
  }

  // The synchronizer.

  datatype Reply = Reply(version: nat, serverAddr: string, serverPort: int, authToken: string,
                         tunnels: seq<ConfigTunnel>)

  function InputOf(r: Reply): Frpc.RenderInput {
    Frpc.RenderInput(r.serverAddr, r.serverPort, r.authToken, Proxies(r.tunnels))
  }

  /** What a call sees and leaves: path of the state file, recorded version, state file,
      `frpc.toml`, the text the running frpc read, and the tunnels for the health checks. */
  datatype View = View(path: string, version: nat, disk: StateFile, file: Option<string>,
                       running: Option<string>, tunnels: seq<ConfigTunnel>)

  datatype Faults = Faults(apply: ApplyFault, save: SaveFault)

  const NO_FAULTS := Faults(ApplyOk, SaveOk)

  /** `SyncOnce` after a successful pull. */
  function Reconcile(v: View, r: Reply, rendered: Frpc.RenderResult, f: Faults, saved: StateFile): (View, bool) {
    var w := v.(tunnels := r.tunnels);
    if r.version == v.version && v.running.Some? then (w, true)
    else if rendered.Failed? || BeforeRename(f.apply) then (w, false)
    else if !f.apply.ApplyOk? then (w.(file := Some(rendered.text), running := None), false)
    else (w.(file := Some(rendered.text), running := Some(rendered.text), version := r.version,
             disk := if v.path != "" && f.save.SaveOk? then saved else v.disk), true)
  }

  function SyncSpec(ip: string -> bool, v: View, reply: Option<Reply>, f: Faults, me: Snapshot): (View, bool) {
    match reply
    case None => (v, false)
    case Some(r) => Reconcile(v, r, Frpc.RenderSpec(ip, InputOf(r)), f, Whole(me.(version := r.version)))
  }

  lemma FastPath(v: View, r: Reply, rendered: Frpc.RenderResult, f: Faults, saved: StateFile)
    requires r.version == v.version && v.running.Some?
    ensures Reconcile(v, r, rendered, f, saved) == (v.(tunnels := r.tunnels), true)
  {
  }

  /** The tunnels seen before do not matter. */
  lemma TunnelsReplaced(v: View, r: Reply, rendered: Frpc.RenderResult, f: Faults, saved: StateFile)
    ensures Reconcile(v.(tunnels := r.tunnels), r, rendered, f, saved) == Reconcile(v, r, rendered, f, saved)
  {
  }

  class Synchronizer {
    const state: State
    const manager: Manager
    const ip: string -> bool
    var lastTunnels: seq<ConfigTunnel>
    var trigger: bool             // the one-place channel is full

    ghost predicate Valid()
      reads this, state, manager
    {
      state.Valid() && manager.Launched()
    }

    ghost function Sees(): View
      reads this, state, manager
    {
      View(state.path, state.version, state.disk, manager.file, manager.Running(), lastTunnels)
    }

    constructor (state: State, manager: Manager, ip: string -> bool)
      requires state.Valid() && manager.Launched()
      ensures Valid() && this.state == state && this.manager == manager && this.ip == ip && !trigger
    {
      this.state, this.manager, this.ip := state, manager, ip;
      lastTunnels, trigger := [], false;
    }

    /** Fills the slot, or finds it full. */
    method Trigger()
      requires Valid()
      modifies this
      ensures Valid() && trigger && Sees() == old(Sees())
    {
      if !trigger { trigger := true; }
    }

    /** Pull, render, reload, record.  `reply` is what the pull returned, if it succeeded. */
    method SyncOnce(reply: Option<Reply>, f: Faults) returns (ok: bool)
      requires Valid()
      modifies this, state, manager
      ensures Valid() && trigger == old(trigger)
      ensures (Sees(), ok) == SyncSpec(ip, old(Sees()), reply, f, old(state.Memory()))
      ensures state.Memory() == old(state.Memory()).(version := state.version)
      ensures old(state.seen) <= state.seen
      ensures forall k :: |old(state.seen)| <= k < |state.seen| ==>
                state.seen[k] == old(state.disk) || state.seen[k] == Whole(state.Memory())
    {
      if reply.None? { return false; }
      var cfg := reply.value;
      ghost var before, saved := Sees(), Whole(state.Memory().(version := cfg.version));
      lastTunnels := cfg.tunnels;
      assert Sees() == before.(tunnels := cfg.tunnels);
      if cfg.version == state.version && manager.IsRunning() {
        FastPath(before, cfg, Frpc.RenderSpec(ip, InputOf(cfg)), f, saved);
        return true;
      }
      TunnelsReplaced(before, cfg, Frpc.RenderSpec(ip, InputOf(cfg)), f, saved);
      var proxies := ToProxies(cfg.tunnels);
      var rendered := Frpc.Render(ip, Frpc.RenderInput(cfg.serverAddr, cfg.serverPort, cfg.authToken, proxies));
      ok := Reload(cfg, rendered, f);
    }

    /** The second half of `SyncOnce`: installs what was rendered, restarts frpc, records the version. */
    method Reload(cfg: Reply, rendered: Frpc.RenderResult, f: Faults) returns (ok: bool)
      requires Valid() && lastTunnels == cfg.tunnels
      requires !(cfg.version == state.version && manager.IsRunning())
      modifies state, manager
      ensures Valid() && trigger == old(trigger)
      ensures (Sees(), ok) ==
              Reconcile(old(Sees()), cfg, rendered, f, Whole(old(state.Memory()).(version := cfg.version)))
      ensures state.Memory() == old(state.Memory()).(version := state.version)
      ensures old(state.seen) <= state.seen
      ensures forall k :: |old(state.seen)| <= k < |state.seen| ==>
                state.seen[k] == old(state.disk) || state.seen[k] == Whole(state.Memory())
    {
      if rendered.Failed? { return false; }
      ok := manager.Apply(rendered.text, f.apply);
      if !ok { return; }
      var saved := state.SetConfigVersion(cfg.version, f.save);
    }

    /** frpc ends by itself: nothing but the process changes, and the next call finds it down. */
    method FrpcExits()
      requires Valid()
      modifies manager
      ensures Valid() && trigger == old(trigger)
      ensures Sees() == old(Sees()).(running := None)
    {
      manager.Exit();
    }

    /** One `beat`: `needSync` is the server's answer, if one came. */
    method Beat(needSync: Option<bool>)
      requires Valid()
      modifies this
      ensures Valid() && Sees() == old(Sees())
      ensures trigger == (old(trigger) || needSync == Some(true))
    {
      if needSync.None? { return; }
      if needSync.value { Trigger(); }
    }
  }

  datatype Status = Ok | PendingSync

  /** The agent's `Publish`, once the server has answered: `created` is the new tunnel's id, and
      `reply` what the pull of the following sync returned. */
  method Publish(syncer: Synchronizer, created: Option<Id>, reply: Option<Reply>, f: Faults)
    returns (r: Option<(Id, Status)>)
    requires syncer.Valid()
    modifies syncer, syncer.state, syncer.manager
    ensures syncer.Valid()
    ensures r.Some? <==> created.Some?
    ensures created.None? ==> syncer.Sees() == old(syncer.Sees())
    ensures created.Some? ==>
      && r.value.0 == created.value
      && (syncer.Sees(), r.value.1 == Ok) ==
         SyncSpec(syncer.ip, old(syncer.Sees()), reply, f, old(syncer.state.Memory()))
  {
    if created.None? { return None; }
    var status := Ok;
    var ok := syncer.SyncOnce(reply, f);
    if !ok { status := PendingSync; }
    return Some((created.value, status));
  }

  // What one call guarantees.

  /** A failed call leaves the recorded version and the state file alone; if nothing was installed,
      also `frpc.toml` and the process; otherwise frpc is down, so the next call retries. */
  lemma FailedSync(ip: string -> bool, v: View, reply: Option<Reply>, f: Faults, me: Snapshot)
    requires !SyncSpec(ip, v, reply, f, me).1
    ensures var w := SyncSpec(ip, v, reply, f, me).0;
      && w.version == v.version && w.disk == v.disk
      && (|| (w.file == v.file && w.running == v.running)
          || (w.running.None? && !BeforeRename(f.apply) && w.file.Some?))
  {
  }

  /** After a successful call frpc runs and the recorded version is the reply's; unless the fast
      path was taken, frpc runs exactly the rendering of the reply. */
  lemma SuccessfulSync(ip: string -> bool, v: View, reply: Option<Reply>, f: Faults, me: Snapshot)
    requires SyncSpec(ip, v, reply, f, me).1
    ensures reply.Some?
    ensures var w := SyncSpec(ip, v, reply, f, me).0;
      && w.version == reply.value.version && w.running.Some? && w.tunnels == reply.value.tunnels
      && (if v.running.Some? && v.version == w.version
          then w == v.(tunnels := w.tunnels)
          else && Frpc.RenderSpec(ip, InputOf(reply.value)).Rendered?
               && w.running == w.file == Some(Frpc.RenderSpec(ip, InputOf(reply.value)).text))
  {
  }

  /** A second call with the same reply does nothing: no restart, no write. */
  lemma SyncTwice(ip: string -> bool, v: View, reply: Option<Reply>, f: Faults, g: Faults, me: Snapshot, you: Snapshot)
    requires SyncSpec(ip, v, reply, f, me).1
    ensures var w := SyncSpec(ip, v, reply, f, me).0;
      SyncSpec(ip, w, reply, g, you) == (w, true)
  {
    SuccessfulSync(ip, v, reply, f, me);
    SyncAgain(SyncSpec(ip, v, reply, f, me).0, reply.value, Frpc.RenderSpec(ip, InputOf(reply.value)), g,
              Whole(you.(version := reply.value.version)));
  }

  /** After a failed save the call still counts as a success and memory holds the new version; the
      state file keeps the old one, and the next call with that reply does nothing while frpc runs. */
  lemma FailedSaveStays(ip: string -> bool, v: View, r: Reply, f: Faults, g: Faults, me: Snapshot, you: Snapshot)
    requires !f.save.SaveOk? && SyncSpec(ip, v, Some(r), f, me).1
    ensures var w := SyncSpec(ip, v, Some(r), f, me).0;
      && w.version == r.version && w.disk == v.disk && w.running.Some?
      && SyncSpec(ip, w, Some(r), g, you) == (w, true)
  {
    SyncTwice(ip, v, Some(r), f, g, me, you);
    SavesNothing(v, r, Frpc.RenderSpec(ip, InputOf(r)), f, Whole(me.(version := r.version)));
  }

  /** Exactly when a call repairs a state file that is behind a version memory already holds: frpc is
      down, so that the fast path is not taken, and nothing fails. */
  lemma SaveRepairedExactly(ip: string -> bool, w: View, r: Reply, g: Faults, you: Snapshot)
    requires w.version == r.version && w.disk != Whole(you.(version := r.version))
    ensures SyncSpec(ip, w, Some(r), g, you).0.disk == Whole(you.(version := r.version)) <==>
            && w.running.None?
            && r.serverAddr != "" && 1 <= r.serverPort <= 65535
            && g.apply.ApplyOk? && w.path != "" && g.save.SaveOk?
  {
    RepairedExactly(w, r, Frpc.RenderSpec(ip, InputOf(r)), g, Whole(you.(version := r.version)));
  }

  lemma RepairedExactly(w: View, r: Reply, rendered: Frpc.RenderResult, g: Faults, saved: StateFile)
    requires w.version == r.version && w.disk != saved
    ensures Reconcile(w, r, rendered, g, saved).0.disk == saved <==>
            w.running.None? && rendered.Rendered? && g.apply.ApplyOk? && w.path != "" && g.save.SaveOk?
  {
  }

  /** The failed save repaired: frpc exits (`Synchronizer.FrpcExits`), and the same reply, without faults, goes
      through the reload and saves. */
  lemma FailedSaveRepaired(ip: string -> bool, v: View, r: Reply, f: Faults, me: Snapshot, you: Snapshot)
    requires !f.save.SaveOk? && SyncSpec(ip, v, Some(r), f, me).1
    requires r.serverAddr != "" && 1 <= r.serverPort <= 65535 && v.path != ""
    ensures var w := SyncSpec(ip, v, Some(r), f, me).0.(running := None);
      SyncSpec(ip, w, Some(r), NO_FAULTS, you).0.disk == Whole(you.(version := r.version))
  {
    ReloadSaves(SyncSpec(ip, v, Some(r), f, me).0.(running := None), r, Frpc.RenderSpec(ip, InputOf(r)),
                Whole(you.(version := r.version)));
    KeepsPath(v, r, Frpc.RenderSpec(ip, InputOf(r)), f, Whole(me.(version := r.version)));
  }

  lemma KeepsPath(v: View, r: Reply, rendered: Frpc.RenderResult, f: Faults, saved: StateFile)
    ensures Reconcile(v, r, rendered, f, saved).0.path == v.path
  {
  }

  lemma ReloadSaves(w: View, r: Reply, rendered: Frpc.RenderResult, saved: StateFile)
    requires w.running.None? && rendered.Rendered?
    ensures w.path != "" ==> Reconcile(w, r, rendered, NO_FAULTS, saved).0.disk == saved
  {
  }

  lemma SavesNothing(v: View, r: Reply, rendered: Frpc.RenderResult, f: Faults, saved: StateFile)
    requires !f.save.SaveOk? && Reconcile(v, r, rendered, f, saved).1
    ensures var w := Reconcile(v, r, rendered, f, saved).0; w.version == r.version && w.disk == v.disk
  {
  }

  lemma SyncAgain(w: View, r: Reply, rendered: Frpc.RenderResult, g: Faults, saved: StateFile)
    requires w.version == r.version && w.running.Some? && w.tunnels == r.tunnels
    ensures Reconcile(w, r, rendered, g, saved) == (w, true)
  {
  }

  /** Without faults the call succeeds exactly when the pull does and the settings are usable, or
      nothing needed doing. */
  lemma CleanSync(ip: string -> bool, v: View, reply: Option<Reply>, me: Snapshot)
    ensures SyncSpec(ip, v, reply, NO_FAULTS, me).1 <==>
            && reply.Some?
            && (|| (reply.value.version == v.version && v.running.Some?)
                || (reply.value.serverAddr != "" && 1 <= reply.value.serverPort <= 65535))
  {
  }
}
