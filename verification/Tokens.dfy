/** The per-machine token: the agent's memory and disk, the server's two hashes, and
    everything that can happen between them.

    `TokenFile` is the code that stores a token.  `State` and `Apply` put that code,
    cut at every point where the process can die, in a system with a server, a command
    worker and a network that loses and delays.  The theorems hold for every sequence
    of events.  Two assumptions: the requests of the polling loop reach the server in
    the order sent, and a completed rename is durable. */
module Tokens {
  import opened Basics

  type Token = nat

  // --- token.dat --------------------------------------------------------------

  /** A stored blob: cut short, or a token protected under a DPAPI entropy
      (`None`: protected the old way, without one). */
  datatype Blob = Partial | Sealed(token: Token, key: Option<nat>)

  datatype Disk = Disk(file: Option<Blob>, tmp: Option<Blob>, entropy: Option<nat>)

  function Unprotect(b: Blob, key: Option<nat>): Option<Token> {
    if b.Sealed? && b.key == key then Some(b.token) else None
  }

  /** `ensureTokenEntropy`: `creatable` is the value it could create, `None` without the
      rights to create one. */
  function EnsureEntropy(d: Disk, creatable: Option<nat>): Disk {
    if d.entropy.Some? then d else d.(entropy := creatable)
  }

  /** What reading token.dat yields: under the entropy, else the legacy way. */
  function Stored(d: Disk): Option<Token> {
    if d.file.None? then None
    else if Unprotect(d.file.value, d.entropy).Some? then Unprotect(d.file.value, d.entropy)
    else Unprotect(d.file.value, None)
  }

  /** Whether the stored token is one any local user can unprotect. */
  predicate Legacy(d: Disk) {
    d.file.Some? && (d.entropy.None? || Unprotect(d.file.value, d.entropy).None?)
  }

  // The three writes of `atomicWrite`, and the clean-up of a failed one.
  function OpenTmp(d: Disk): Disk { d.(tmp := Some(Partial)) }

  function FillTmp(d: Disk, t: Token): Disk { d.(tmp := Some(Sealed(t, d.entropy))) }

  function RenameTmp(d: Disk): Disk { d.(file := d.tmp, tmp := None) }

  function Abandon(d: Disk, removed: bool): Disk { if removed then d.(tmp := None) else d }

  /** Where a save stops, if it stops: at the directory, the protection, the open of the
      temporary file, its bytes, its flush, the rename.  `removed` says whether the
      temporary file could be deleted afterwards. */
  datatype Fault =
    | NoFault
    | NoDir
    | NoProtect
    | NoOpen(removed: bool)
    | NoWrite(removed: bool)
    | NoFlush(removed: bool)
    | NoRename(removed: bool)

  /** Every state of the disk a save passes through: the states a crash can leave. */
  function SaveTrace(d: Disk, t: Token, creatable: Option<nat>, fault: Fault): (tr: seq<Disk>)
    ensures |tr| > 0
  {
    var e := EnsureEntropy(d, creatable);
    match fault
    case NoDir => [d]
    case NoProtect => [d, e]
    case NoOpen(removed) => [d, e, Abandon(e, removed)]
    case NoWrite(removed) => [d, e, OpenTmp(e), Abandon(OpenTmp(e), removed)]
    case NoFlush(removed) => [d, e, OpenTmp(e), FillTmp(e, t), Abandon(FillTmp(e, t), removed)]
    case NoRename(removed) => [d, e, OpenTmp(e), FillTmp(e, t), Abandon(FillTmp(e, t), removed)]
    case NoFault => [d, e, OpenTmp(e), FillTmp(e, t), RenameTmp(FillTmp(e, t))]
  }

  predicate Readable(d: Disk) {
    d.file.Some? ==> d.file.value.Sealed? && (d.file.value.key.None? || d.file.value.key == d.entropy)
  }

  /** At every point of a save the disk holds the old token or the new one, whole and
      readable; it ends with the new one exactly when the save reports success. */
  lemma SaveIsAtomic(d: Disk, t: Token, creatable: Option<nat>, fault: Fault)
    requires Readable(d)
    ensures var tr := SaveTrace(d, t, creatable, fault);
      && (forall i :: 0 <= i < |tr| ==> Readable(tr[i]) && Stored(tr[i]) in {Stored(d), Some(t)})
      && (fault.NoFault? ==> Stored(tr[|tr| - 1]) == Some(t))
      && (!fault.NoFault? ==> tr[|tr| - 1].file == d.file && Stored(tr[|tr| - 1]) == Stored(d))
  {
    var e := EnsureEntropy(d, creatable);
    assert Stored(e) == Stored(d);
    assert Stored(RenameTmp(FillTmp(e, t))) == Some(t);
  }

  /** A save without fault protects the token under the entropy of the installation,
      which it creates when it may and never changes; without one, the old way. */
  lemma SavedUnderEntropy(d: Disk, t: Token, creatable: Option<nat>)
    ensures var tr := SaveTrace(d, t, creatable, NoFault);
      var end := tr[|tr| - 1];
      && (d.entropy.Some? ==> end.entropy == d.entropy)
      && (d.entropy.None? ==> end.entropy == creatable)
      && end.file == Some(Sealed(t, end.entropy)) && end.tmp == None
  {
  }

  class TokenFile {
    var file: Option<Blob>
    var tmp: Option<Blob>
    var entropy: Option<nat>

    ghost function View(): Disk
      reads this
    {
      Disk(file, tmp, entropy)
    }

    method WriteSynced(t: Token, fault: Fault) returns (ok: bool, ghost trace: seq<Disk>)
      requires !fault.NoDir? && !fault.NoProtect?
      modifies this`tmp
      ensures ok == (fault.NoFault? || fault.NoRename?)
      ensures var d := old(View());
        trace == if fault.NoOpen? then [] else [OpenTmp(d)] + if fault.NoWrite? then [] else [FillTmp(d, t)]
      ensures View() == if trace == [] then old(View()) else trace[|trace| - 1]
    {
      trace := [];
      if fault.NoOpen? {
        return false, trace;
      }
      tmp := Some(Partial);
      trace := trace + [View()];
      if fault.NoWrite? {
        return false, trace;
      }
      tmp := Some(Sealed(t, entropy));
      trace := trace + [View()];
      ok := !fault.NoFlush?;
    }

    method SaveToken(t: Token, creatable: Option<nat>, fault: Fault) returns (ok: bool, ghost trace: seq<Disk>)
      modifies this
      ensures ok == fault.NoFault?
      ensures trace == SaveTrace(old(View()), t, creatable, fault)
      ensures View() == trace[|trace| - 1]
      ensures old(entropy).Some? ==> entropy == old(entropy)
      ensures ok && old(entropy).None? ==> entropy == creatable
      ensures ok ==> file == Some(Sealed(t, entropy))
    {
      SavedUnderEntropy(View(), t, creatable);
      trace := [View()];
      if fault.NoDir? {
        return false, trace;
      }
      if entropy.None? {
        entropy := creatable;
      }
      trace := trace + [View()];
      if fault.NoProtect? {
        return false, trace;
      }
      ghost var writes;
      ok, writes := WriteSynced(t, fault);
      trace := trace + writes;
      if ok && fault.NoFault? {
        file, tmp := tmp, None;
        trace := trace + [View()];
        return true, trace;
      }
      if fault.removed {
        tmp := None;
      }
      trace := trace + [View()];
      ok := false;
    }

    /** `locked`: the file cannot be read at this moment. */
    method LoadToken(locked: bool, creatable: Option<nat>, fault: Fault) returns (t: Option<Token>)
      requires Readable(View())
      modifies this
      ensures t == if locked then None else Stored(old(View()))
      ensures Readable(View()) && Stored(View()) == Stored(old(View()))
      ensures !locked && Legacy(old(View())) && (entropy.None? || fault.NoFault?) ==>
        file == None || file.value.key == entropy
      ensures !locked && old(file).Some? && (old(entropy).Some? || creatable.Some?) && fault.NoFault? ==>
        entropy.Some? && file.Some? && file.value.key == entropy
      ensures locked || !Legacy(old(View())) ==> View() == old(View())
    {
      if locked || file.None? {
        return None;
      }
      var under := entropy;
      t := Unprotect(file.value, under);
      if t.None? {
        t := Unprotect(file.value, None);
        if t.None? {
          return;
        }
        under := None;
      }
      if under.None? {
        if entropy.None? {
          entropy := creatable;
        }
        if entropy.Some? {
          SaveIsAtomic(View(), t.value, creatable, fault);
          var _, _ := SaveToken(t.value, creatable, fault);
        }
      }
    }

    method ClearToken(fails: bool) returns (ok: bool)
      modifies this`file
      ensures ok == (old(file).None? || !fails)
      ensures file == if ok then None else old(file)
    {
      ok := file.None? || !fails;
      if ok {
        file := None;
      }
    }
  }

  /** The offer becomes the token only once it is on disk. */
  function AdoptRotated(current: Option<Token>, offered: Option<Token>, saved: bool): (next: Option<Token>)
    ensures next != current ==> saved && next == offered && offered.Some?
    ensures saved && offered.Some? ==> next == offered
  {
    if offered.None? || offered == current then current
    else if !saved then current
    else offered
  }

  /** The two places a running agent holds its token, beside the file. */
  class TokenHolder {
    var cfg: Option<Token>
    var client: Option<Token>
    const store: TokenFile

    constructor (store: TokenFile)
      requires Readable(store.View())
      ensures this.store == store && cfg == client == Stored(store.View())
    {
      this.store := store;
      cfg := if store.file.None? then None
             else if Unprotect(store.file.value, store.entropy).Some? then Unprotect(store.file.value, store.entropy)
             else Unprotect(store.file.value, None);
      client := cfg;
    }

    method RotateToken(offered: Option<Token>, creatable: Option<nat>, fault: Fault)
      requires Readable(store.View())
      modifies this, store
      ensures cfg == AdoptRotated(old(cfg), offered, fault.NoFault?)
      ensures cfg != old(cfg) ==> client == cfg && Stored(store.View()) == cfg
      ensures cfg == old(cfg) ==> client == old(client)
      ensures !fault.NoFault? ==> Stored(store.View()) == Stored(old(store.View()))
      ensures offered.None? || offered == old(cfg) ==> store.View() == old(store.View())
      ensures Readable(store.View())
    {
      if offered.None? || offered == cfg {
        return;
      }
      SaveIsAtomic(store.View(), offered.value, creatable, fault);
      var ok, _ := store.SaveToken(offered.value, creatable, fault);
      if !ok {
        return;
      }
      cfg := offered;
      client := offered;
    }

    method DropToken(fails: bool)
      modifies this, store`file
      ensures cfg == client == None
      ensures !fails ==> store.file == None
      ensures fails ==> store.file == old(store.file)
    {
      cfg := None;
      client := None;
      var _ := store.ClearToken(fails);
    }
  }

  // --- The server's two hashes ------------------------------------------------

  /** `minted` counts the tokens ever generated: token `k` is the k-th of them. */
  datatype Server = Server(current: Option<Token>, pending: Option<Token>, minted: nat)

  predicate Honoured(v: Server, t: Token) {
    v.current == Some(t) || v.pending == Some(t)
  }

  /** A request carrying `t`: the first use of the offered token promotes it. */
  function Authenticate(v: Server, t: Token): Server {
    if v.current != Some(t) && v.pending == Some(t) then v.(current := Some(t), pending := None) else v
  }

  function Offer(v: Server): Server {
    v.(pending := Some(v.minted), minted := v.minted + 1)
  }

  function Mint(v: Server): Server {
    Server(Some(v.minted), None, v.minted + 1)
  }

  // --- The system -------------------------------------------------------------

  datatype Reply = Denied | Accepted(offer: Option<Token>)

  datatype Purpose = Enrolling | Rotating | Migrating

  datatype Stage = Protected | Opened | Filled

  /** Where the polling loop is.  `Switching`: stored, `cfg` and then the client are
      about to follow. */
  datatype Phase =
    | Off
    | Ready
    | Waiting(reply: Option<Reply>)
    | Saving(token: Token, purpose: Purpose, stage: Stage)
    | Switching(next: Token)

  /** `wire`: heartbeats sent and not yet handled, oldest first.  `posts`: tokens ever
      carried by a worker request; any of them may arrive, late and more than once.
      `approval`: the server holds the re-enrolment of a live machine for an
      administrator.  `rejected`: some heartbeat has been answered 401. */
  datatype State = State(
    server: Server, disk: Disk, cfg: Option<Token>, client: Option<Token>, phase: Phase,
    wire: seq<Token>, posts: set<Token>, approval: bool, rejected: bool)

  datatype Event =
    | Boot(locked: bool, creatable: Option<nat>)
    | Crash
    | Poll
    | ServeHeartbeat(due: bool)
    | LoseHeartbeat(i: nat)
    | GiveUp
    | TakeReply(offerEntropy: Option<nat>, clearFails: bool)
    | Enroll(delivered: bool, enrollEntropy: Option<nat>)
    | SaveStep(fails: bool, removed: bool)
    | Switch
    | Post
    | ServePost(t: Token)

  function DoBoot(s: State, locked: bool, creatable: Option<nat>): State {
    if !s.phase.Off? then s
    else if locked || Stored(s.disk).None? then s.(phase := Ready)
    else
      var t := Stored(s.disk).value;
      if Legacy(s.disk) && EnsureEntropy(s.disk, creatable).entropy.Some? then
        s.(disk := EnsureEntropy(s.disk, creatable), phase := Saving(t, Migrating, Protected))
      else
        s.(cfg := Some(t), client := Some(t), phase := Ready)
  }

  function DoServeHeartbeat(s: State, due: bool): State {
    if s.wire == [] then s
    else
      var t := s.wire[0];
      var known := Honoured(s.server, t);
      var v := Authenticate(s.server, t);
      var offers := known && due;
      var w := if offers then Offer(v) else v;
      var reply := if !known then Denied else Accepted(if offers then w.pending else None);
      var heard := |s.wire| == 1 && s.phase == Waiting(None);
      s.(server := w, wire := s.wire[1..], rejected := s.rejected || !known,
         phase := if heard then Waiting(Some(reply)) else s.phase)
  }

  function DoLoseHeartbeat(s: State, i: nat): State {
    if i >= |s.wire| then s
    else s.(wire := s.wire[..i] + s.wire[i + 1..],
            phase := if i == |s.wire| - 1 && s.phase == Waiting(None) then Ready else s.phase)
  }

  function DoTakeReply(s: State, creatable: Option<nat>, clearFails: bool): State {
    if !(s.phase.Waiting? && s.phase.reply.Some?) then s
    else match s.phase.reply.value
      case Denied =>
        s.(cfg := None, client := None, phase := Ready,
           disk := if clearFails then s.disk else s.disk.(file := None))
      case Accepted(offer) =>
        if AdoptRotated(s.cfg, offer, true) == s.cfg then s.(phase := Ready)
        else s.(disk := EnsureEntropy(s.disk, creatable), phase := Saving(offer.value, Rotating, Protected))
  }

  function DoEnroll(s: State, delivered: bool, creatable: Option<nat>): State {
    if s.phase != Ready || s.cfg.Some? || s.wire != [] then s
    else if s.server.current.Some? && s.approval then s
    else
      var v := Mint(s.server);
      if !delivered then s.(server := v)
      else s.(server := v, cfg := v.current, client := v.current,
              disk := EnsureEntropy(s.disk, creatable), phase := Saving(v.current.value, Enrolling, Protected))
  }

  /** Where the polling loop goes when a save ends. */
  function AfterSave(s: State, ok: bool): State
    requires s.phase.Saving?
  {
    var t := s.phase.token;
    match s.phase.purpose
    case Enrolling => s.(phase := Ready)
    case Migrating => s.(cfg := Some(t), client := Some(t), phase := Ready)
    case Rotating => s.(phase := if AdoptRotated(s.cfg, Some(t), ok) == s.cfg then Ready else Switching(t))
  }

  function DoSaveStep(s: State, fails: bool, removed: bool): State {
    if !s.phase.Saving? then s
    else
      var t, p := s.phase.token, s.phase.purpose;
      if fails then
        AfterSave(s.(disk := Abandon(s.disk, removed)), false)
      else match s.phase.stage
        case Protected => s.(disk := OpenTmp(s.disk), phase := Saving(t, p, Opened))
        case Opened => s.(disk := FillTmp(s.disk, t), phase := Saving(t, p, Filled))
        case Filled => AfterSave(s.(disk := RenameTmp(s.disk)), true)
  }

  function DoSwitch(s: State): State {
    if !s.phase.Switching? then s
    else if s.cfg != Some(s.phase.next) then s.(cfg := Some(s.phase.next))
    else s.(client := Some(s.phase.next), phase := Ready)
  }

  function Apply(s: State, e: Event): State {
    match e
    case Boot(locked, creatable) => DoBoot(s, locked, creatable)
    case Crash => s.(cfg := None, client := None, phase := Off)
    case Poll =>
      if s.phase == Ready && s.cfg.Some? && s.client.Some? then
        s.(wire := s.wire + [s.client.value], phase := Waiting(None))
      else s
    case ServeHeartbeat(due) => DoServeHeartbeat(s, due)
    case LoseHeartbeat(i) => DoLoseHeartbeat(s, i)
    case GiveUp => if s.phase.Waiting? then s.(phase := Ready) else s
    case TakeReply(creatable, clearFails) => DoTakeReply(s, creatable, clearFails)
    case Enroll(delivered, creatable) => DoEnroll(s, delivered, creatable)
    case SaveStep(fails, removed) => DoSaveStep(s, fails, removed)
    case Switch => DoSwitch(s)
    case Post => if s.client.Some? then s.(posts := s.posts + {s.client.value}) else s
    case ServePost(t) => if t in s.posts then s.(server := Authenticate(s.server, t)) else s
  }

  function Exec(s: State, es: seq<Event>): State
    decreases |es|
  {
    if es == [] then s else Exec(Apply(s, es[0]), es[1..])
  }

  /** A poste before its first boot in the run: never enrolled, or with the server's
      current token on its disk, protected in either way. */
  ghost predicate Initial(s: State) {
    && s.phase == Off && s.cfg == None && s.client == None
    && s.wire == [] && s.posts == {} && !s.rejected
    && s.server.pending == None && s.disk.tmp == None
    && (s.server.current.Some? ==> s.server.current.value < s.server.minted)
    && Readable(s.disk)
    && (s.disk.file.Some? ==> s.server.current == Some(s.disk.file.value.token))
  }

  // --- The invariant ----------------------------------------------------------

  predicate All(wire: seq<Token>, t: Option<Token>) {
    forall i :: 0 <= i < |wire| ==> Some(wire[i]) == t
  }

  predicate Only(x: Option<Token>, t: Option<Token>) {
    x == None || x == t
  }

  function OnDisk(s: State): Option<Token> {
    if s.disk.file.Some? && s.disk.file.value.Sealed? then Some(s.disk.file.value.token) else None
  }

  /** The offer the polling loop is dealing with. */
  function InHand(s: State): Option<Token> {
    match s.phase
    case Waiting(Some(Accepted(offer))) => offer
    case Saving(t, Rotating, _) => Some(t)
    case Switching(t) => Some(t)
    case _ => None
  }

  /** Everything outside the server uses `t` alone. */
  predicate Settled(s: State, t: Option<Token>) {
    && All(s.wire, t) && Only(s.cfg, t) && Only(s.client, t) && Only(OnDisk(s), t)
    && InHand(s) == None
    && (s.phase.Saving? ==> Some(s.phase.token) == t)
  }

  /** The offer has reached the polling loop and nothing has used it yet. */
  predicate Offered(s: State, q: Token) {
    && InHand(s) == Some(q) && s.wire == [] && q !in s.posts
    && s.client == s.server.current
    && s.cfg in {s.server.current, if s.phase.Switching? then Some(q) else s.server.current}
    && if s.phase.Switching? then OnDisk(s) == Some(q) else Only(OnDisk(s), s.server.current)
  }

  predicate TokensAgree(s: State) {
    var c, p := s.server.current, s.server.pending;
    if p == None then Settled(s, c)
    else
      || (Settled(s, c) && p.value !in s.posts)
      || Offered(s, p.value)
      || (Settled(s, p) && OnDisk(s) == p)
  }

  predicate Shape(s: State) {
    && (s.phase.Off? || (s.phase.Saving? && s.phase.purpose.Migrating?) ==> s.cfg == None && s.client == None)
    && (!s.phase.Switching? ==> s.cfg == s.client)
    && (s.phase.Waiting? || s.phase.Switching? ==> s.cfg.Some?)
    && (s.phase.Saving? && !s.phase.purpose.Migrating? ==> s.cfg.Some?)
    && (s.phase.Saving? && s.phase.stage.Filled? ==> s.disk.tmp == Some(Sealed(s.phase.token, s.disk.entropy)))
    && (s.phase == Waiting(None) ==> s.wire != [])
    && s.phase != Waiting(Some(Denied))
  }

  predicate Inv(s: State) {
    var v := s.server;
    && (v.current.Some? ==> v.current.value < v.minted)
    && (v.pending.Some? ==> v.current.Some? && v.pending.value < v.minted && v.pending != v.current)
    && (forall t :: t in s.posts ==> t < v.minted)
    && Readable(s.disk)
    && Shape(s)
    && TokensAgree(s)
    && !s.rejected
  }

  /** An enrolment the server answers with a new token, while one is stored. */
  predicate Supplants(s: State, e: Event) {
    e.Enroll? && s.disk.file.Some? && DoEnroll(s, e.delivered, e.enrollEntropy) != s
  }

  lemma BootKeepsInv(s: State, locked: bool, creatable: Option<nat>)
    requires Inv(s)
    ensures Inv(DoBoot(s, locked, creatable))
  {
  }

  lemma ServeHeartbeatKeepsInv(s: State, due: bool)
    requires Inv(s)
    ensures Inv(DoServeHeartbeat(s, due))
  {
    if s.wire != [] {
      var t := s.wire[0];
      assert Honoured(s.server, t);
      var r := DoServeHeartbeat(s, due);
      assert forall i :: 0 <= i < |r.wire| ==> r.wire[i] == s.wire[i + 1];
      var v := Authenticate(s.server, t);
      assert Settled(s, v.current);
      assert forall q :: q in r.posts ==> q < v.minted;
      if !due {
        assert r.server == v;
        assert Settled(r, v.current) || (v.pending.Some? && Settled(r, v.pending));
      } else {
        assert r.server.pending == Some(v.minted);
        if InHand(r) == None {
          assert Settled(r, v.current);
        } else {
          assert Offered(r, v.minted);
        }
      }
    }
  }

  lemma LoseHeartbeatKeepsInv(s: State, i: nat)
    requires Inv(s)
    ensures Inv(DoLoseHeartbeat(s, i))
  {
    if i < |s.wire| {
      var r := DoLoseHeartbeat(s, i);
      assert forall k :: 0 <= k < |r.wire| ==> r.wire[k] == if k < i then s.wire[k] else s.wire[k + 1];
      assert InHand(r) == InHand(s);
    }
  }

  lemma TakeReplyKeepsInv(s: State, creatable: Option<nat>, clearFails: bool)
    requires Inv(s)
    ensures Inv(DoTakeReply(s, creatable, clearFails))
  {
  }

  lemma EnrollKeepsInv(s: State, delivered: bool, creatable: Option<nat>)
    requires Inv(s) && !Supplants(s, Enroll(delivered, creatable))
    ensures Inv(DoEnroll(s, delivered, creatable))
  {
  }

  lemma SaveWriteKeepsInv(s: State)
    requires Inv(s) && s.phase.Saving? && !s.phase.stage.Filled?
    ensures Inv(DoSaveStep(s, false, false))
  {
    var r := DoSaveStep(s, false, false);
    assert OnDisk(r) == OnDisk(s) && InHand(r) == InHand(s);
  }

  lemma SaveEndKeepsInv(s: State)
    requires Inv(s) && s.phase.Saving? && s.phase.stage.Filled?
    ensures Inv(DoSaveStep(s, false, false))
  {
    var r := DoSaveStep(s, false, false);
    assert OnDisk(r) == Some(s.phase.token);
    if s.phase.purpose.Rotating? {
      assert Offered(s, s.phase.token) && Offered(r, s.phase.token);
    } else {
      assert InHand(r) == None;
    }
  }

  lemma SaveFailureKeepsInv(s: State, removed: bool)
    requires Inv(s) && s.phase.Saving?
    ensures Inv(DoSaveStep(s, true, removed))
  {
    var r := DoSaveStep(s, true, removed);
    assert OnDisk(r) == OnDisk(s) && InHand(r) == None && r.phase == Ready;
    if s.phase.purpose.Rotating? {
      assert Offered(s, s.phase.token);
      assert Settled(r, s.server.current);
    }
  }

  lemma LocalStepKeepsInv(s: State, e: Event)
    requires Inv(s) && (e.Crash? || e.GiveUp? || e.Switch? || e.Post?)
    ensures Inv(Apply(s, e))
  {
    var r := Apply(s, e);
    match e
    case Crash =>
      assert InHand(r) == None;
    case GiveUp =>
      assert s.phase.Waiting? ==> InHand(r) == None;
    case Switch =>
    case Post =>
      assert InHand(r) == InHand(s);
  }

  lemma ServePostKeepsInv(s: State, t: Token)
    requires Inv(s) && t in s.posts
    ensures Inv(s.(server := Authenticate(s.server, t)))
  {
    var r := s.(server := Authenticate(s.server, t));
    if s.server.pending == Some(t) && s.server.current != Some(t) {
      assert Settled(s, s.server.pending);
      assert Settled(r, r.server.current);
    }
  }

  lemma PollKeepsInv(s: State)
    requires Inv(s)
    ensures Inv(Apply(s, Poll))
  {
    var r := Apply(s, Poll);
    if r != s {
      assert s.client == s.cfg;
      assert r.wire[..|s.wire|] == s.wire;
    }
  }

  lemma StepKeepsInv(s: State, e: Event)
    requires Inv(s) && !Supplants(s, e)
    ensures Inv(Apply(s, e))
    ensures Apply(s, e).approval == s.approval
  {
    match e
    case Boot(locked, creatable) => BootKeepsInv(s, locked, creatable);
    case Poll => PollKeepsInv(s);
    case ServeHeartbeat(due) => ServeHeartbeatKeepsInv(s, due);
    case LoseHeartbeat(i) => LoseHeartbeatKeepsInv(s, i);
    case TakeReply(creatable, clearFails) => TakeReplyKeepsInv(s, creatable, clearFails);
    case Enroll(delivered, creatable) => EnrollKeepsInv(s, delivered, creatable);
    case SaveStep(fails, removed) =>
      if s.phase.Saving? {
        if fails { SaveFailureKeepsInv(s, removed); }
        else if s.phase.stage.Filled? { SaveEndKeepsInv(s); }
        else { SaveWriteKeepsInv(s); }
      }
    case ServePost(t) => if t in s.posts { ServePostKeepsInv(s, t); }
    case _ => LocalStepKeepsInv(s, e);
  }

  // --- Whole runs -------------------------------------------------------------

  /** The tokens in memory and the one a restart would read are each the server's
      current or currently offered one, and no heartbeat has been answered 401. */
  ghost predicate NoDeadToken(s: State) {
    && (s.cfg.Some? ==> Honoured(s.server, s.cfg.value))
    && (s.client.Some? ==> Honoured(s.server, s.client.value))
    && (Stored(s.disk).Some? ==> Honoured(s.server, Stored(s.disk).value))
    && !s.rejected
  }

  lemma InitialInv(s: State)
    requires Initial(s)
    ensures Inv(s) && NoneForgotten(s)
  {
  }

  /** A polling loop without a token knows that there is none on disk, or cannot get
      another one before an administrator looks. */
  predicate NoneForgotten(s: State) {
    s.approval || (s.phase == Ready && s.cfg == None ==> s.disk.file == None)
  }

  /** token.dat can be read at this boot, or re-enrolment needs approval. */
  predicate Sound(s: State, e: Event) {
    s.approval || (e.Boot? ==> !e.locked)
  }

  lemma SoundStep(s: State, e: Event)
    requires Inv(s) && NoneForgotten(s) && Sound(s, e)
    ensures !Supplants(s, e)
    ensures NoneForgotten(Apply(s, e))
  {
    match e
    case Enroll(_, _) => assert s.disk.file.Some? ==> s.server.current.Some?;
    case Boot(locked, creatable) => assert Stored(s.disk).None? ==> s.disk.file == None;
    case _ =>
  }

  lemma {:induction false} RunKeepsInv(s: State, es: seq<Event>)
    requires Inv(s) && NoneForgotten(s)
    requires forall e :: e in es ==> s.approval || (e.Boot? ==> !e.locked)
    ensures Inv(Exec(s, es))
    decreases |es|
  {
    if es == [] {
    } else {
      SoundStep(s, es[0]);
      StepKeepsInv(s, es[0]);
      RunKeepsInv(Apply(s, es[0]), es[1..]);
    }
  }

  lemma InvMeansNoDeadToken(s: State)
    requires Inv(s)
    ensures NoDeadToken(s)
  {
  }

  /** Heartbeats, worker posts, lost replies, failed writes and crashes at any point of
      a save, in any order: no token ever goes dead in the agent's hands. */
  lemma NoRunKillsTheToken(s: State, es: seq<Event>)
    requires Initial(s)
    requires s.approval || forall e :: e in es ==> (e.Boot? ==> !e.locked)
    ensures NoDeadToken(Exec(s, es))
  {
    InitialInv(s);
    RunKeepsInv(s, es);
    InvMeansNoDeadToken(Exec(s, es));
  }

  /** Without the approval rule, a boot that finds token.dat locked for a moment enrols
      anew, and a failed write then leaves the dead token on the disk. */
  lemma LockedFileCanStrandTheDisk() returns (s: State, es: seq<Event>)
    ensures Initial(s) && !s.approval && !NoDeadToken(Exec(s, es))
  {
    var disk := Disk(Some(Sealed(0, None)), None, None);
    s := State(Server(Some(0), None, 1), disk, None, None, Off, [], {}, false, false);
    es := [Boot(true, None), Enroll(true, None), SaveStep(true, true)];
    var s1 := Apply(s, es[0]);
    var s2 := Apply(s1, es[1]);
    var s3 := Apply(s2, es[2]);
    assert es[1..][0] == es[1] && es[1..][1..][0] == es[2] && es[1..][1..][1..] == [];
    assert Exec(s, es) == Exec(s1, es[1..]) == Exec(s2, es[1..][1..]) == s3;
    assert Stored(s3.disk) == Some(0) && s3.server.current == Some(1);
  }

  /** With boots that may fail to read token.dat, every run is safe exactly when the
      server holds re-enrolments for approval. */
  lemma ApprovalIsTheCondition(approval: bool)
    ensures approval <==> forall s: State, es: seq<Event> ::
      Initial(s) && s.approval == approval ==> NoDeadToken(Exec(s, es))
  {
    if approval {
      forall s: State, es: seq<Event> | Initial(s) && s.approval == approval ensures NoDeadToken(Exec(s, es)) {
        NoRunKillsTheToken(s, es);
      }
    } else {
      var s, es := LockedFileCanStrandTheDisk();
    }
  }

  /** At every point of the run no token has gone dead. */
  ghost predicate SafeThroughout(s: State, es: seq<Event>)
    decreases |es|
  {
    NoDeadToken(s) && (es == [] || SafeThroughout(Apply(s, es[0]), es[1..]))
  }

  /** At no point of the run does an enrolment supplant the token on disk. */
  predicate NeverSupplants(s: State, es: seq<Event>)
    decreases |es|
  {
    es == [] || (!Supplants(s, es[0]) && NeverSupplants(Apply(s, es[0]), es[1..]))
  }

  lemma SupplantedIsDead(s: State, e: Event)
    requires Inv(s) && Supplants(s, e)
    ensures !NoDeadToken(Apply(s, e))
  {
    var r := Apply(s, e);
    assert Stored(s.disk).Some? && Honoured(s.server, Stored(s.disk).value);
    assert Stored(r.disk) == Stored(s.disk) && Stored(s.disk).value < s.server.minted;
  }

  lemma {:induction false} SafeSuffix(s: State, es: seq<Event>)
    requires Inv(s)
    ensures SafeThroughout(s, es) <==> NeverSupplants(s, es)
    decreases |es|
  {
    InvMeansNoDeadToken(s);
    if es == [] {
    } else if Supplants(s, es[0]) {
      SupplantedIsDead(s, es[0]);
    } else {
      StepKeepsInv(s, es[0]);
      SafeSuffix(Apply(s, es[0]), es[1..]);
    }
  }

  /** The exact condition on one run, with boots that read the file or not and with or
      without approval: no token goes dead at any point of it if and only if no enrolment
      is granted while a token is stored. */
  lemma SafeExactlyWhen(s: State, es: seq<Event>)
    requires Initial(s)
    ensures SafeThroughout(s, es) <==> NeverSupplants(s, es)
  {
    InitialInv(s);
    SafeSuffix(s, es);
  }

  // --- Old protection goes, new tokens arrive ---------------------------------

  /** A step of a machine whose rights and disk are in order: the entropy can be created,
      token.dat can be read, no save fails. */
  predicate Able(e: Event) {
    match e
    case Boot(locked, creatable) => !locked && creatable.Some?
    case TakeReply(creatable, _) => creatable.Some?
    case Enroll(_, creatable) => creatable.Some?
    case SaveStep(fails, _) => !fails
    case _ => true
  }

  /** The file is protected under the entropy, except while the agent is off or at work on
      it; and what is being saved will be. */
  predicate Reprotected(s: State) {
    && (s.phase.Saving? ==> s.disk.entropy.Some?)
    && (s.disk.file.None? || s.phase.Off? || (s.phase.Saving? && s.phase.purpose.Migrating?)
        || (s.disk.entropy.Some? && s.disk.file.value.Sealed? && s.disk.file.value.key == s.disk.entropy))
  }

  lemma AbleStep(s: State, e: Event)
    requires Inv(s) && NoneForgotten(s) && Able(e) && Reprotected(s)
    ensures Reprotected(Apply(s, e))
  {
  }

  lemma {:induction false} AbleRun(s: State, es: seq<Event>)
    requires Inv(s) && NoneForgotten(s) && Reprotected(s) && forall e :: e in es ==> Able(e)
    ensures Reprotected(Exec(s, es))
    decreases |es|
  {
    if es == [] {
    } else {
      assert Able(es[0]);
      SoundStep(s, es[0]);
      StepKeepsInv(s, es[0]);
      AbleStep(s, es[0]);
      AbleRun(Apply(s, es[0]), es[1..]);
    }
  }

  /** Over every run of such a machine, crashes included, a running agent's token is
      protected under the entropy: the blob any local user can unprotect is gone as soon
      as the first boot is over. */
  lemma NoLegacyBlobWhileRunning(s: State, es: seq<Event>)
    requires Initial(s) && forall e :: e in es ==> Able(e)
    ensures var r := Exec(s, es);
      r.disk.file.Some? && !r.phase.Off? && !(r.phase.Saving? && r.phase.purpose.Migrating?) ==>
        r.disk.entropy.Some? && r.disk.file.value.Sealed? && r.disk.file.value.key == r.disk.entropy
  {
    InitialInv(s);
    AbleRun(s, es);
  }

  /** Three save steps that do not fail. */
  function Stepped3(s: State): State {
    DoSaveStep(DoSaveStep(DoSaveStep(s, false, false), false, false), false, false)
  }

  /** Enrolment, where the server grants it: one fresh token everywhere. */
  lemma EnrolmentCompletes(s: State, creatable: Option<nat>)
    requires s.phase == Ready && s.cfg == None && s.wire == [] && (s.server.current.None? || !s.approval)
    ensures var r := Stepped3(DoEnroll(s, true, creatable));
      && r.phase == Ready && r.server.pending == None
      && r.server.current == r.cfg == r.client == Stored(r.disk) == Some(s.server.minted)
  {
    var a := DoEnroll(s, true, creatable);
    assert a.phase == Saving(s.server.minted, Enrolling, Protected);
    var c := DoSaveStep(DoSaveStep(a, false, false), false, false);
    assert c.disk.tmp == Some(Sealed(s.server.minted, c.disk.entropy));
  }

  /** An enrolment whose answer is lost has still replaced the server's token. */
  lemma LostEnrolmentReplaces(s: State, creatable: Option<nat>)
    requires s.phase == Ready && s.cfg == None && s.wire == [] && (s.server.current.None? || !s.approval)
    ensures var r := DoEnroll(s, false, creatable);
      && r.server == Server(Some(s.server.minted), None, s.server.minted + 1)
      && r.cfg == None && r.phase == Ready && r.disk == s.disk
  {
  }

  /** Any first request with the offered token promotes it, a worker's post as well as a
      heartbeat, and the old one is refused from then on; a request with the current one
      changes nothing. */
  lemma FirstUsePromotes(s: State, former: Token, offered: Token)
    requires s.client == Some(offered) && former != offered
    requires s.server.current == Some(former) && s.server.pending == Some(offered)
    ensures var r := Apply(Apply(s, Post), ServePost(offered));
      r.server == Server(Some(offered), None, s.server.minted) && !Honoured(r.server, former)
    ensures s.phase == Ready && s.cfg.Some? && s.wire == [] ==>
      DoServeHeartbeat(Apply(s, Poll), false).server == Server(Some(offered), None, s.server.minted)
    ensures Authenticate(s.server, former) == s.server
  {
    assert s.wire == [] ==> s.wire + [offered] == [offered];
  }

  /** The way back for a token the server no longer honours: the heartbeat is refused, the
      token dropped in memory and on disk, and a new one obtained. */
  lemma RefusedAgentComesBack(s: State, t: Token, creatable: Option<nat>)
    requires s.phase == Ready && s.cfg == s.client == Some(t) && s.wire == [] && !Honoured(s.server, t)
    requires s.server.current.None? || !s.approval
    ensures var dropped := DoTakeReply(DoServeHeartbeat(Apply(s, Poll), true), creatable, false);
      && dropped.cfg == dropped.client == None && dropped.disk.file == None && dropped.rejected
      && dropped.server == s.server
      && var r := Stepped3(DoEnroll(dropped, true, creatable));
         r.server.current == r.cfg == r.client == Stored(r.disk) == Some(s.server.minted)
  {
    var sent := Apply(s, Poll);
    assert sent.wire == [t];
    assert DoServeHeartbeat(sent, true).phase == Waiting(Some(Denied));
    var dropped := DoTakeReply(DoServeHeartbeat(sent, true), creatable, false);
    assert dropped.phase == Ready && dropped.wire == [];
    EnrolmentCompletes(dropped, creatable);
  }

  /** A restart that finds a stored token starts with a token the server honours, and
      cannot be made to enrol. */
  lemma RestartNeedsNoEnrolment(s: State, es: seq<Event>, creatable: Option<nat>, delivered: bool, other: Option<nat>)
    requires Initial(s) && (s.approval || forall e :: e in es ==> (e.Boot? ==> !e.locked))
    requires Exec(s, es).phase == Off && Exec(s, es).disk.file.Some?
    ensures var r := DoBoot(Exec(s, es), false, creatable);
      && Stored(r.disk).Some? && Honoured(r.server, Stored(r.disk).value)
      && r.phase in {Ready, Saving(Stored(r.disk).value, Migrating, Protected)}
      && (r.phase == Ready ==> r.cfg == r.client == Stored(r.disk))
      && DoEnroll(r, delivered, other) == r
  {
    InitialInv(s);
    RunKeepsInv(s, es);
  }

  /** What one offered token goes through when nothing fails. */
  function Rotation(s: State, creatable: Option<nat>): State {
    var offered := DoServeHeartbeat(Apply(s, Poll), true);
    var begun := DoSaveStep(DoTakeReply(offered, creatable, false), false, false);
    var stored := DoSaveStep(DoSaveStep(begun, false, false), false, false);
    DoServeHeartbeat(Apply(DoSwitch(DoSwitch(stored)), Poll), false)
  }

  lemma OfferArrives(s: State, creatable: Option<nat>)
    requires Inv(s) && s.phase == Ready && s.cfg.Some? && s.wire == []
    ensures var r := DoTakeReply(DoServeHeartbeat(Apply(s, Poll), true), creatable, false);
      && r.phase == Saving(s.server.minted, Rotating, Protected) && r.wire == [] && !r.rejected
      && r.cfg == s.cfg && r.server == Server(s.cfg, Some(s.server.minted), s.server.minted + 1)
      && s.cfg.value < s.server.minted
  {
    var sent := Apply(s, Poll);
    assert sent.wire == [s.cfg.value] && Honoured(s.server, s.cfg.value);
    assert DoServeHeartbeat(sent, true).phase == Waiting(Some(Accepted(Some(s.server.minted))));
  }

  lemma OfferIsTaken(s: State, t: Token)
    requires s.phase.Saving? && s.phase.purpose.Rotating? && s.phase.stage.Protected? && s.wire == [] && !s.rejected
    requires s.cfg == Some(t) && t != s.phase.token
    requires s.server.current == Some(t) && s.server.pending == Some(s.phase.token)
    ensures var r := DoServeHeartbeat(Apply(DoSwitch(DoSwitch(
                       DoSaveStep(DoSaveStep(DoSaveStep(s, false, false), false, false), false, false))), Poll), false);
      && r.server.current == r.cfg == r.client == Stored(r.disk) == Some(s.phase.token)
      && r.server.pending == None && !r.rejected && !Honoured(r.server, t)
  {
    var q := s.phase.token;
    var stored := DoSaveStep(DoSaveStep(DoSaveStep(s, false, false), false, false), false, false);
    assert stored.phase == Switching(q) && Stored(stored.disk) == Some(q);
    var ready := DoSwitch(DoSwitch(stored));
    assert ready.phase == Ready && ready.cfg == ready.client == Some(q);
    assert Apply(ready, Poll).wire == [q];
  }

  /** From every reachable point at which the polling loop is about to send a heartbeat
      and none is on its way, a rotation in which nothing fails completes: memory, disk
      and server end up with one fresh token, and the one used before is refused. */
  lemma RotationCompletes(s: State, es: seq<Event>, creatable: Option<nat>)
    requires Initial(s) && (s.approval || forall e :: e in es ==> (e.Boot? ==> !e.locked))
    requires Exec(s, es).phase == Ready && Exec(s, es).cfg.Some? && Exec(s, es).wire == []
    ensures var now := Exec(s, es);
      var r := Rotation(now, creatable);
      && r.server.current == r.cfg == r.client == Stored(r.disk) == Some(now.server.minted)
      && r.server.pending == None && !r.rejected
      && !Honoured(r.server, now.cfg.value)
  {
    InitialInv(s);
    RunKeepsInv(s, es);
    var now := Exec(s, es);
    OfferArrives(now, creatable);
    OfferIsTaken(DoTakeReply(DoServeHeartbeat(Apply(now, Poll), true), creatable, false), now.cfg.value);
  }

  /** The disks the machine's steps pass through in a save that stops at `fault`, from the
      point where the entropy is settled. */
  function SavedSteps(s: State, fault: Fault): seq<Disk> {
    var a := DoSaveStep(s, false, false);
    var b := DoSaveStep(a, false, false);
    match fault
    case NoDir => []
    case NoProtect => []
    case NoOpen(removed) => [DoSaveStep(s, true, removed).disk]
    case NoWrite(removed) => [a.disk, DoSaveStep(a, true, removed).disk]
    case NoFlush(removed) => [a.disk, b.disk, DoSaveStep(b, true, removed).disk]
    case NoRename(removed) => [a.disk, b.disk, DoSaveStep(b, true, removed).disk]
    case NoFault => [a.disk, b.disk, DoSaveStep(b, false, false).disk]
  }

  /** The machine's save steps, failing or not, are the disk states of `SaveToken`; a save
      that fails before it opens the temporary file is one that leaves the disk alone. */
  lemma SaveStepsAreTheTrace(s: State, fault: Fault)
    requires s.phase.Saving? && s.phase.stage.Protected?
    ensures SaveTrace(s.disk, s.phase.token, s.disk.entropy, fault)
      == (if fault.NoDir? then [s.disk] else [s.disk, s.disk]) + SavedSteps(s, fault)
    ensures DoSaveStep(s, true, false).disk == s.disk
  {
  }
}
