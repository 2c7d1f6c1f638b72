/** The runtime registry validator: many local checks that add up to one owner and one launch
    (canonical_strategy_runtime.py). */
module StrategyRegistry {
  import opened Sequences

  datatype Kind = Staging | Active | Unknown

  datatype Status = ActiveRuntime | Inactive | Retired

  /** The state file as read: absent, not a JSON object, or an object with usable status fields or not. */
  datatype StateFile = NoFile | Garbage | Payload(usable: bool)

  datatype Owner = Owner(id: string, namespace: string, scope: string, venues: seq<string>)

  /** `fieldsOk` stands for the checks of single fields and paths, `bindingsOk` for the comparison of
      files and commits with the declared hashes. */
  datatype Runtime = Runtime(
    id: string, status: Status, namespace: string, scope: string, venues: seq<string>, routable: bool,
    readiness: string, modes: seq<string>, publicOnly: bool, live: bool, fieldsOk: bool,
    bindingsOk: bool, state: StateFile)

  datatype Registry = Registry(kind: Kind, fieldsOk: bool, activeId: string, owners: seq<Owner>, runtimes: seq<Runtime>)

  datatype Reason =
    | TopLevel | OwnerInvalid(i: nat) | DuplicateOwner(i: nat) | RuntimeInvalid(i: nat) | DuplicateRuntime(i: nat)
    | OwnerMissing(i: nat) | OwnerMismatch(i: nat) | OwnerWithoutRuntime(i: nat)
    | ActiveCount | RoutableCount | ActiveRoutableMismatch | ActiveIdMismatch | ActiveInvalid(i: nat)
    | ScopeOverlap(i: nat, j: nat) | NamespaceCollision(i: nat, j: nat)

  // ---- Single entries ----

  predicate IdentifierHead(c: char) { 'a' <= c <= 'z' || '0' <= c <= '9' }

  predicate ValidIdentifier(s: string) {
    s != "" && IdentifierHead(s[0]) && forall i :: 0 <= i < |s| ==> IdentifierHead(s[i]) || s[i] in ['_', '.', '-']
  }

  predicate OwnerOk(o: Owner) {
    ValidIdentifier(o.id) && ValidIdentifier(o.namespace) && ValidIdentifier(o.scope) && o.venues != []
  }

  predicate RuntimeOk(r: Runtime, kind: Kind) {
    && r.fieldsOk && ValidIdentifier(r.id) && ValidIdentifier(r.namespace)
    && r.publicOnly && !r.live
    && !(kind.Staging? && r.routable)
    && !((r.status.Inactive? || r.status.Retired?) && r.routable)
  }

  function OwnerOf(owners: seq<Owner>, id: string): Option<Owner> {
    if owners == [] then None
    else if owners[|owners| - 1].id == id then Some(owners[|owners| - 1])
    else OwnerOf(owners[..|owners| - 1], id)
  }

  predicate OwnerAgrees(o: Owner, r: Runtime) {
    o.namespace == r.namespace && o.scope == r.scope && o.venues == r.venues
  }

  // ---- Lists ----

  function ActiveOnes(runtimes: seq<Runtime>): seq<nat> {
    if runtimes == [] then []
    else ActiveOnes(runtimes[..|runtimes| - 1]) + if runtimes[|runtimes| - 1].status.ActiveRuntime? then [|runtimes| - 1] else []
  }

  function RoutableOnes(runtimes: seq<Runtime>): seq<nat> {
    if runtimes == [] then []
    else RoutableOnes(runtimes[..|runtimes| - 1]) + if runtimes[|runtimes| - 1].routable then [|runtimes| - 1] else []
  }

  lemma {:induction false} OnesFacts(runtimes: seq<Runtime>)
    ensures forall i :: i in ActiveOnes(runtimes) <==> 0 <= i < |runtimes| && runtimes[i].status.ActiveRuntime?
    ensures forall i :: i in RoutableOnes(runtimes) <==> 0 <= i < |runtimes| && runtimes[i].routable
  {
    if runtimes != [] {
      OnesFacts(runtimes[..|runtimes| - 1]);
    }
  }

  const READY_AFTER_MIGRATION := "READY_AFTER_ROUTER_MIGRATION"

  predicate ActiveOk(r: Runtime) {
    r.routable && r.readiness == READY_AFTER_MIGRATION && forall m :: m in r.modes ==> m == "DISCOVERY" || m == "PAPER_RESEARCH"
  }

  predicate ActivationOk(reg: Registry) {
    var active, routable := ActiveOnes(reg.runtimes), RoutableOnes(reg.runtimes);
    OnesFacts(reg.runtimes);
    && |active| == 1 && |routable| == 1 && active[0] == routable[0]
    && (assert active[0] in active; reg.activeId == reg.runtimes[active[0]].id && ActiveOk(reg.runtimes[active[0]]))
  }

  predicate Dotted(prefix: string, name: string) { prefix + "." <= name }

  predicate Collide(a: string, b: string) { a == b || Dotted(b, a) || Dotted(a, b) }

  predicate Overlap(a: Runtime, b: Runtime) {
    a.status.ActiveRuntime? && b.status.ActiveRuntime? && a.scope == b.scope && exists v :: v in a.venues && v in b.venues
  }

  ghost predicate StructureOk(reg: Registry) {
    && TopOk(reg) && OwnersOk(reg.owners) && RuntimesOk(reg.runtimes, reg.kind) && OwnershipOk(reg)
    && (reg.kind.Active? ==> ActivationOk(reg))
    && PairsOk(reg.runtimes)
  }

  predicate TopOk(reg: Registry) { reg.fieldsOk && !reg.kind.Unknown? && reg.owners != [] && reg.runtimes != [] }

  ghost predicate OwnersOk(owners: seq<Owner>) {
    && (forall i :: 0 <= i < |owners| ==> OwnerOk(owners[i]))
    && (forall i, j :: 0 <= i < j < |owners| ==> owners[i].id != owners[j].id && owners[i].namespace != owners[j].namespace)
  }

  ghost predicate RuntimesOk(runtimes: seq<Runtime>, kind: Kind) {
    && (forall i :: 0 <= i < |runtimes| ==> RuntimeOk(runtimes[i], kind))
    && (forall i, j :: 0 <= i < j < |runtimes| ==> runtimes[i].id != runtimes[j].id)
  }

  ghost predicate OwnershipOk(reg: Registry) {
    && (forall i :: 0 <= i < |reg.runtimes| ==>
          var o := OwnerOf(reg.owners, reg.runtimes[i].id); o.Some? && OwnerAgrees(o.value, reg.runtimes[i]))
    && (forall i :: 0 <= i < |reg.owners| ==> HasRuntime(reg.runtimes, reg.owners[i].id))
  }

  predicate HasRuntime(runtimes: seq<Runtime>, id: string) { exists j :: 0 <= j < |runtimes| && runtimes[j].id == id }

  ghost predicate PairsOk(runtimes: seq<Runtime>) {
    forall i, j :: 0 <= i < j < |runtimes| ==>
      !Collide(runtimes[i].namespace, runtimes[j].namespace) && !Overlap(runtimes[i], runtimes[j])
  }

  // ---- The validator's loops ----

  method CheckOwners(owners: seq<Owner>) returns (reasons: seq<Reason>)
    ensures reasons == [] <==> OwnersOk(owners)
  {
    hide OwnerOk;
    reasons := [];
    for i := 0 to |owners|
      invariant reasons == [] <==>
        && (forall k :: 0 <= k < i ==> OwnerOk(owners[k]))
        && (forall h, k :: 0 <= h < k < i ==> owners[h].id != owners[k].id && owners[h].namespace != owners[k].namespace)
    {
      if !OwnerOk(owners[i]) {
        reasons := reasons + [OwnerInvalid(i)];
      }
      if exists h :: 0 <= h < i && (owners[h].id == owners[i].id || owners[h].namespace == owners[i].namespace) {
        reasons := reasons + [DuplicateOwner(i)];
      }
    }
  }

  method CheckRuntimes(runtimes: seq<Runtime>, kind: Kind) returns (reasons: seq<Reason>)
    ensures reasons == [] <==> RuntimesOk(runtimes, kind)
  {
    hide RuntimeOk;
    reasons := [];
    for i := 0 to |runtimes|
      invariant reasons == [] <==>
        && (forall k :: 0 <= k < i ==> RuntimeOk(runtimes[k], kind))
        && (forall h, k :: 0 <= h < k < i ==> runtimes[h].id != runtimes[k].id)
    {
      if !RuntimeOk(runtimes[i], kind) {
        reasons := reasons + [RuntimeInvalid(i)];
      }
      if exists h :: 0 <= h < i && runtimes[h].id == runtimes[i].id {
        reasons := reasons + [DuplicateRuntime(i)];
      }
    }
  }

  method CheckOwnership(reg: Registry) returns (reasons: seq<Reason>)
    ensures reasons == [] <==> OwnershipOk(reg)
  {
    hide HasRuntime;
    reasons := [];
    for i := 0 to |reg.runtimes|
      invariant reasons == [] <==> forall k :: 0 <= k < i ==>
        var o := OwnerOf(reg.owners, reg.runtimes[k].id); o.Some? && OwnerAgrees(o.value, reg.runtimes[k])
    {
      var o := OwnerOf(reg.owners, reg.runtimes[i].id);
      if o.None? {
        reasons := reasons + [OwnerMissing(i)];
      } else if !OwnerAgrees(o.value, reg.runtimes[i]) {
        reasons := reasons + [OwnerMismatch(i)];
      }
    }
    ghost var first := reasons;
    for i := 0 to |reg.owners|
      invariant reasons == [] <==> first == [] && forall k :: 0 <= k < i ==> HasRuntime(reg.runtimes, reg.owners[k].id)
    {
      if !HasRuntime(reg.runtimes, reg.owners[i].id) {
        reasons := reasons + [OwnerWithoutRuntime(i)];
      }
    }
  }

  method CheckActivation(reg: Registry) returns (reasons: seq<Reason>)
    ensures reasons == [] <==> ActivationOk(reg)
  {
    hide ActiveOk;
    var active, routable := ActiveOnes(reg.runtimes), RoutableOnes(reg.runtimes);
    OnesFacts(reg.runtimes);
    reasons := [];
    if |active| != 1 {
      reasons := reasons + [ActiveCount];
    }
    if |routable| != 1 {
      reasons := reasons + [RoutableCount];
    }
    if |active| == 1 && |routable| == 1 && active[0] != routable[0] {
      reasons := reasons + [ActiveRoutableMismatch];
    }
    if |active| == 1 {
      assert active[0] in active;
      if reg.activeId != reg.runtimes[active[0]].id {
        reasons := reasons + [ActiveIdMismatch];
      }
    }
    ghost var before := reasons;
    for k := 0 to |active|
      invariant reasons == [] <==>
        before == [] && forall j :: 0 <= j < k ==> active[j] < |reg.runtimes| && ActiveOk(reg.runtimes[active[j]])
    {
      assert active[k] in active;
      if !ActiveOk(reg.runtimes[active[k]]) {
        reasons := reasons + [ActiveInvalid(active[k])];
      }
    }
  }

  method CheckPairs(runtimes: seq<Runtime>) returns (reasons: seq<Reason>)
    ensures reasons == [] <==> PairsOk(runtimes)
  {
    hide Collide;
    hide Overlap;
    reasons := [];
    for i := 0 to |runtimes|
      invariant reasons == [] <==> forall h, k :: 0 <= h < i && h < k < |runtimes| ==>
        !Collide(runtimes[h].namespace, runtimes[k].namespace) && !Overlap(runtimes[h], runtimes[k])
    {
      ghost var before := reasons;
      for j := i + 1 to |runtimes|
        invariant reasons == [] <==> before == [] && forall k :: i < k < j ==>
          !Collide(runtimes[i].namespace, runtimes[k].namespace) && !Overlap(runtimes[i], runtimes[k])
      {
        if Overlap(runtimes[i], runtimes[j]) {
          reasons := reasons + [ScopeOverlap(i, j)];
        }
        if Collide(runtimes[i].namespace, runtimes[j].namespace) {
          reasons := reasons + [NamespaceCollision(i, j)];
        }
      }
    }
  }

  method ValidateStructure(reg: Registry) returns (reasons: seq<Reason>)
    ensures reasons == [] <==> StructureOk(reg)
  {
    hide OwnersOk;
    hide RuntimesOk;
    hide OwnershipOk;
    hide ActivationOk;
    hide PairsOk;
    reasons := if TopOk(reg) then [] else [TopLevel];
    var owners := CheckOwners(reg.owners);
    var runtimes := CheckRuntimes(reg.runtimes, reg.kind);
    var ownership := CheckOwnership(reg);
    var activation := [];
    if reg.kind.Active? {
      activation := CheckActivation(reg);
    }
    var pairs := CheckPairs(reg.runtimes);
    reasons := reasons + owners + runtimes + ownership + activation + pairs;
  }

  // ---- One runtime ----

  datatype Decision = Blocked | RetiredNotRoutable | InactiveNotRoutable | RetryWithoutLaunch | ReadyRoutable | ReadyNotRoutable

  predicate StateReady(r: Runtime, kind: Kind) {
    r.state.Payload? && (kind.Active? && r.status.ActiveRuntime? ==> r.state.usable)
  }

  function Decide(r: Runtime, kind: Kind): Decision {
    if !r.bindingsOk then Blocked
    else if r.status.Retired? then RetiredNotRoutable
    else if r.status.Inactive? then InactiveNotRoutable
    else if !StateReady(r, kind) then RetryWithoutLaunch
    else if r.routable then ReadyRoutable
    else ReadyNotRoutable
  }

  predicate MayLaunch(r: Runtime, kind: Kind) {
    kind.Active? && Decide(r, kind).ReadyRoutable? && r.status.ActiveRuntime? && r.routable
  }

  predicate RowReady(d: Decision, kind: Kind) {
    d.InactiveNotRoutable? || d.RetiredNotRoutable? || (if kind.Active? then d.ReadyRoutable? else d.ReadyNotRoutable?)
  }

  function Launchable(runtimes: seq<Runtime>, kind: Kind): seq<nat> {
    if runtimes == [] then []
    else Launchable(runtimes[..|runtimes| - 1], kind) + if MayLaunch(runtimes[|runtimes| - 1], kind) then [|runtimes| - 1] else []
  }

  datatype Report = Report(valid: bool, ok: bool, launchAllowed: bool, launchable: seq<nat>)

  method ValidateRegistry(reg: Registry) returns (report: Report)
    ensures report.valid <==> StructureOk(reg)
    ensures !report.valid ==> !report.ok && !report.launchAllowed
    ensures report.valid ==>
              && report.launchable == Launchable(reg.runtimes, reg.kind)
              && (report.launchAllowed <==> reg.kind.Active? && AllReady(reg))
              && (report.ok <==> AllReady(reg))
              && (!reg.kind.Active? ==> report.launchable == [])
  {
    hide StructureOk, Decide, RowReady, MayLaunch;
    var reasons := ValidateStructure(reg);
    if reasons != [] {
      return Report(false, false, false, []);
    }
    var allReady, launchable := true, [];
    for i := 0 to |reg.runtimes|
      invariant allReady <==> forall k :: 0 <= k < i ==> RowReady(Decide(reg.runtimes[k], reg.kind), reg.kind)
      invariant launchable == Launchable(reg.runtimes[..i], reg.kind)
    {
      assert reg.runtimes[..i + 1][..i] == reg.runtimes[..i];
      var d := Decide(reg.runtimes[i], reg.kind);
      allReady := allReady && RowReady(d, reg.kind);
      if MayLaunch(reg.runtimes[i], reg.kind) {
        launchable := launchable + [i];
      }
    }
    assert reg.runtimes[..|reg.runtimes|] == reg.runtimes;
    if reg.kind.Active? { var _ := LaunchIffAllReady(reg); } else { InactiveNeverLaunches(reg.runtimes, reg.kind); }
    var launchAllowed := reg.kind.Active? && allReady && |launchable| == 1;
    return Report(true, if reg.kind.Active? then launchAllowed else allReady, launchAllowed, launchable);
  }

  // ---- What validity implies ----

  /** A name belongs to a namespace when it is the namespace or lies below it. */
  predicate Under(name: string, namespace: string) { name == namespace || Dotted(namespace, name) }

  /** Two namespaces collide exactly when some name belongs to both. */
  lemma CollisionIffSharedName(a: string, b: string)
    ensures Collide(a, b) <==> exists name :: Under(name, a) && Under(name, b)
  {
    if Collide(a, b) {
      if Dotted(b, a) { assert Under(a, a) && Under(a, b); } else { assert Under(b, a) && Under(b, b); }
    }
    if exists name :: Under(name, a) && Under(name, b) {
      var name :| Under(name, a) && Under(name, b);
      assert a <= name && b <= name;
      if |a| < |b| { SharedPrefix(a, b, name); }
      else if |b| < |a| { SharedPrefix(b, a, name); }
    }
  }

  lemma SharedPrefix(short: string, long: string, name: string)
    requires |short| < |long| && Under(name, short) && Under(name, long)
    ensures Dotted(short, long)
  {
    assert long <= name && short + "." <= name;
    assert long == name[..|long|] && short + "." == name[..|short| + 1];
  }

  /** In an accepted registry any dotted name falls under at most one runtime's namespace. */
  lemma OneOwnerPerName(reg: Registry, name: string, i: nat, j: nat)
    requires StructureOk(reg) && i < |reg.runtimes| && j < |reg.runtimes|
    requires Under(name, reg.runtimes[i].namespace) && Under(name, reg.runtimes[j].namespace)
    ensures i == j
  {
    var a, b := reg.runtimes[i].namespace, reg.runtimes[j].namespace;
    CollisionIffSharedName(a, b);
    CollisionIffSharedName(b, a);
  }

  lemma {:induction false} LaunchableFacts(runtimes: seq<Runtime>, kind: Kind)
    ensures forall i :: i in Launchable(runtimes, kind) <==> 0 <= i < |runtimes| && MayLaunch(runtimes[i], kind)
    ensures |Launchable(runtimes, kind)| <= |ActiveOnes(runtimes)|
  {
    if runtimes != [] {
      hide Decide;
      LaunchableFacts(runtimes[..|runtimes| - 1], kind);
    }
  }

  predicate AllReady(reg: Registry) {
    forall i :: 0 <= i < |reg.runtimes| ==> RowReady(Decide(reg.runtimes[i], reg.kind), reg.kind)
  }

  /** An accepted active registry has one runtime that is active, routable and the one it names. */
  lemma OneActiveRoutable(reg: Registry) returns (only: nat)
    requires ActivationOk(reg)
    ensures ActiveOnes(reg.runtimes) == [only]
    ensures only < |reg.runtimes| && reg.runtimes[only].id == reg.activeId
    ensures forall i :: 0 <= i < |reg.runtimes| ==>
              ((reg.runtimes[i].status.ActiveRuntime? <==> i == only) && (reg.runtimes[i].routable <==> i == only))
  {
    hide ActiveOk;
    OnesFacts(reg.runtimes);
    only := ActiveOnes(reg.runtimes)[0];
    assert only in ActiveOnes(reg.runtimes);
    forall i | 0 <= i < |reg.runtimes|
      ensures (reg.runtimes[i].status.ActiveRuntime? <==> i == only) && (reg.runtimes[i].routable <==> i == only)
    {
      assert i in ActiveOnes(reg.runtimes) <==> i == only;
      assert i in RoutableOnes(reg.runtimes) <==> i == only;
    }
  }

  /** Launch is allowed exactly when the registry is of the active kind and every runtime row is ready;
      then the single launchable runtime is the one active, routable runtime that the registry names. */
  lemma LaunchIffAllReady(reg: Registry) returns (only: nat)
    requires StructureOk(reg) && reg.kind.Active?
    ensures AllReady(reg) ==> Launchable(reg.runtimes, reg.kind) == [only]
    ensures only < |reg.runtimes| && reg.runtimes[only].id == reg.activeId
    ensures forall i :: 0 <= i < |reg.runtimes| ==>
              ((reg.runtimes[i].status.ActiveRuntime? <==> i == only) && (reg.runtimes[i].routable <==> i == only))
  {
    hide ActivationOk, OwnersOk, RuntimesOk, OwnershipOk, PairsOk, TopOk;
    only := OneActiveRoutable(reg);
    LaunchableFacts(reg.runtimes, reg.kind);
    if AllReady(reg) {
      assert RowReady(Decide(reg.runtimes[only], reg.kind), reg.kind);
      assert only in Launchable(reg.runtimes, reg.kind);
    }
  }

  /** Only the active kind of registry launches anything. */
  lemma {:induction false} InactiveNeverLaunches(runtimes: seq<Runtime>, kind: Kind)
    requires !kind.Active?
    ensures Launchable(runtimes, kind) == []
  {
    if runtimes != [] {
      InactiveNeverLaunches(runtimes[..|runtimes| - 1], kind);
    }
  }
}
