/** What a sound runtime registry is, told from its fields, and when it may launch. */
module RegistryAnswer {
  import opened Sequences
  import opened StrategyRegistry

  predicate LowerOrDigit(c: char) { 'a' <= c <= 'z' || '0' <= c <= '9' }

  /** Lower-case letters and digits, with points, dashes and underscores behind the first of them. */
  ghost predicate IsIdentifier(s: string) {
    s != "" && LowerOrDigit(s[0]) && forall c :: c in s ==> LowerOrDigit(c) || c in "_.-"
  }

  lemma IdentifiersAre(s: string)
    ensures ValidIdentifier(s) <==> IsIdentifier(s)
  {
    if ValidIdentifier(s) {
      forall c | c in s ensures LowerOrDigit(c) || c in "_.-" {
        var i :| 0 <= i < |s| && s[i] == c;
      }
    }
    if IsIdentifier(s) {
      forall i | 0 <= i < |s| ensures IdentifierHead(s[i]) || s[i] in ['_', '.', '-'] { assert s[i] in s; }
    }
  }

  // ---- Sound registries ----

  ghost predicate NamedOwner(o: Owner) {
    IsIdentifier(o.id) && IsIdentifier(o.namespace) && IsIdentifier(o.scope) && o.venues != []
  }

  /** Public data only, never live, and routed only as the active runtime of an active registry. */
  ghost predicate SafeRuntime(r: Runtime, kind: Kind) {
    && r.fieldsOk && IsIdentifier(r.id) && IsIdentifier(r.namespace)
    && r.publicOnly && !r.live
    && (r.routable ==> kind.Active? && r.status.ActiveRuntime?)
  }

  ghost predicate OwnedBy(r: Runtime, o: Owner) {
    o.id == r.id && o.namespace == r.namespace && o.scope == r.scope && o.venues == r.venues
  }

  /** The one runtime that an active registry runs: active, routed, named, ready, and limited to research. */
  ghost predicate RunsOnly(reg: Registry, only: nat) {
    && only < |reg.runtimes|
    && (forall i :: 0 <= i < |reg.runtimes| ==>
          ((reg.runtimes[i].status.ActiveRuntime? <==> i == only) && (reg.runtimes[i].routable <==> i == only)))
    && var r := reg.runtimes[only];
       && r.id == reg.activeId && r.readiness == "READY_AFTER_ROUTER_MIGRATION"
       && forall m :: m in r.modes ==> m in ["DISCOVERY", "PAPER_RESEARCH"]
  }

  /** No name lies under two namespaces, and no two active runtimes share a venue in one scope. */
  ghost predicate Apart(a: Runtime, b: Runtime) {
    && (forall name :: !(Under(name, a.namespace) && Under(name, b.namespace)))
    && !(a.status.ActiveRuntime? && b.status.ActiveRuntime? && a.scope == b.scope && exists v :: v in a.venues && v in b.venues)
  }

  ghost predicate AllOwnersNamed(owners: seq<Owner>) {
    && (forall i :: 0 <= i < |owners| ==> NamedOwner(owners[i]))
    && (forall i, j :: 0 <= i < j < |owners| ==> owners[i].id != owners[j].id && owners[i].namespace != owners[j].namespace)
  }

  ghost predicate AllRuntimesSafe(runtimes: seq<Runtime>, kind: Kind) {
    && (forall i :: 0 <= i < |runtimes| ==> SafeRuntime(runtimes[i], kind))
    && (forall i, j :: 0 <= i < j < |runtimes| ==> runtimes[i].id != runtimes[j].id)
  }

  ghost predicate Owned(r: Runtime, owners: seq<Owner>) { exists o :: o in owners && OwnedBy(r, o) }

  ghost predicate Runs(o: Owner, runtimes: seq<Runtime>) { exists r :: r in runtimes && r.id == o.id }

  /** Every runtime has an owner that agrees with it, and every owner a runtime. */
  ghost predicate Matched(reg: Registry) {
    && (forall i :: 0 <= i < |reg.runtimes| ==> Owned(reg.runtimes[i], reg.owners))
    && (forall i :: 0 <= i < |reg.owners| ==> Runs(reg.owners[i], reg.runtimes))
  }

  ghost predicate AllApart(runtimes: seq<Runtime>) {
    forall i, j :: 0 <= i < j < |runtimes| ==> Apart(runtimes[i], runtimes[j])
  }

  ghost predicate Sound(reg: Registry) {
    && reg.fieldsOk && reg.kind in {Staging, Active} && reg.owners != [] && reg.runtimes != []
    && AllOwnersNamed(reg.owners) && AllRuntimesSafe(reg.runtimes, reg.kind) && Matched(reg)
    && (reg.kind.Active? ==> exists only: nat :: RunsOnly(reg, only))
    && AllApart(reg.runtimes)
  }

  lemma OwnersAre(owners: seq<Owner>)
    ensures OwnersOk(owners) <==> AllOwnersNamed(owners)
  {
    forall i | 0 <= i < |owners| ensures OwnerOk(owners[i]) <==> NamedOwner(owners[i]) {
      IdentifiersAre(owners[i].id);
      IdentifiersAre(owners[i].namespace);
      IdentifiersAre(owners[i].scope);
      hide ValidIdentifier, IsIdentifier;
    }
    hide OwnerOk, NamedOwner;
  }

  lemma RuntimesAre(runtimes: seq<Runtime>, kind: Kind)
    requires !kind.Unknown?
    ensures RuntimesOk(runtimes, kind) <==> AllRuntimesSafe(runtimes, kind)
  {
    forall i | 0 <= i < |runtimes| ensures RuntimeOk(runtimes[i], kind) <==> SafeRuntime(runtimes[i], kind) {
      IdentifiersAre(runtimes[i].id);
      IdentifiersAre(runtimes[i].namespace);
      hide ValidIdentifier, IsIdentifier;
    }
    hide RuntimeOk, SafeRuntime;
  }

  lemma {:induction false} OwnerOfIs(owners: seq<Owner>, id: string)
    requires forall i, j :: 0 <= i < j < |owners| ==> owners[i].id != owners[j].id
    ensures forall o :: OwnerOf(owners, id) == Some(o) <==> o in owners && o.id == id
  {
    if owners != [] {
      var front, last := owners[..|owners| - 1], owners[|owners| - 1];
      OwnerOfIs(front, id);
      assert owners == front + [last];
      if last.id == id {
        forall o | o in owners && o.id == id ensures o == last {
          var i :| 0 <= i < |owners| && owners[i] == o;
        }
      }
    }
  }

  lemma OwnedIs(r: Runtime, owners: seq<Owner>)
    requires forall i, j :: 0 <= i < j < |owners| ==> owners[i].id != owners[j].id
    ensures (OwnerOf(owners, r.id).Some? && OwnerAgrees(OwnerOf(owners, r.id).value, r)) <==> Owned(r, owners)
  {
    var found := OwnerOf(owners, r.id);
    OwnerOfIs(owners, r.id);
    if found.Some? { assert found == Some(found.value); }
    if o :| o in owners && OwnedBy(r, o) { assert found == Some(o); }
  }

  lemma RunsIs(o: Owner, runtimes: seq<Runtime>)
    ensures HasRuntime(runtimes, o.id) <==> Runs(o, runtimes)
  {
    if j :| 0 <= j < |runtimes| && runtimes[j].id == o.id { assert runtimes[j] in runtimes; }
  }

  lemma OwnershipIs(reg: Registry)
    requires forall i, j :: 0 <= i < j < |reg.owners| ==> reg.owners[i].id != reg.owners[j].id
    ensures OwnershipOk(reg) <==> Matched(reg)
  {
    hide OwnerOf, OwnerAgrees, Owned, HasRuntime, Runs;
    forall i | 0 <= i < |reg.runtimes|
      ensures (var o := OwnerOf(reg.owners, reg.runtimes[i].id); o.Some? && OwnerAgrees(o.value, reg.runtimes[i]))
         <==> Owned(reg.runtimes[i], reg.owners)
    {
      OwnedIs(reg.runtimes[i], reg.owners);
    }
    forall i | 0 <= i < |reg.owners|
      ensures HasRuntime(reg.runtimes, reg.owners[i].id) <==> Runs(reg.owners[i], reg.runtimes)
    {
      RunsIs(reg.owners[i], reg.runtimes);
    }
  }

  lemma {:induction false} OnesInOrder(runtimes: seq<Runtime>)
    ensures forall i, j :: 0 <= i < j < |ActiveOnes(runtimes)| ==> ActiveOnes(runtimes)[i] < ActiveOnes(runtimes)[j]
    ensures forall i, j :: 0 <= i < j < |RoutableOnes(runtimes)| ==> RoutableOnes(runtimes)[i] < RoutableOnes(runtimes)[j]
  {
    if runtimes != [] {
      OnesInOrder(runtimes[..|runtimes| - 1]);
      OnesFacts(runtimes[..|runtimes| - 1]);
      var active, routable := ActiveOnes(runtimes[..|runtimes| - 1]), RoutableOnes(runtimes[..|runtimes| - 1]);
      assert forall i :: 0 <= i < |active| ==> active[i] in active;
      assert forall i :: 0 <= i < |routable| ==> routable[i] in routable;
    }
  }

  lemma ActivationIs(reg: Registry)
    ensures ActivationOk(reg) <==> exists only: nat :: RunsOnly(reg, only)
  {
    OnesFacts(reg.runtimes);
    OnesInOrder(reg.runtimes);
    if ActivationOk(reg) {
      var only := OneActiveRoutable(reg);
      assert RunsOnly(reg, only);
    }
    if only: nat :| RunsOnly(reg, only) {
      var active, routable := ActiveOnes(reg.runtimes), RoutableOnes(reg.runtimes);
      assert only in active && only in routable;
      assert forall i :: 0 <= i < |active| ==> active[i] in active;
      assert forall i :: 0 <= i < |routable| ==> routable[i] in routable;
      OnlyOne(active, only);
      OnlyOne(routable, only);
    }
  }

  lemma OnlyOne(s: seq<nat>, only: nat)
    requires only in s && (forall i :: 0 <= i < |s| ==> s[i] == only)
    requires |s| > 1 ==> s[0] < s[1]
    ensures s == [only]
  {
  }

  lemma PairsAre(runtimes: seq<Runtime>)
    ensures PairsOk(runtimes) <==> AllApart(runtimes)
  {
    forall i, j | 0 <= i < j < |runtimes|
      ensures Apart(runtimes[i], runtimes[j]) <==>
              !Collide(runtimes[i].namespace, runtimes[j].namespace) && !Overlap(runtimes[i], runtimes[j])
    {
      CollisionIffSharedName(runtimes[i].namespace, runtimes[j].namespace);
      hide Collide, Under;
    }
    hide Apart, Collide, Overlap;
  }

  /** The validator's checks add up to exactly the sound registries. */
  lemma StructureIsSound(reg: Registry)
    ensures StructureOk(reg) <==> Sound(reg)
  {
    if reg.fieldsOk && !reg.kind.Unknown? {
      OwnersAre(reg.owners);
      RuntimesAre(reg.runtimes, reg.kind);
      if AllOwnersNamed(reg.owners) { OwnershipIs(reg); }
      ActivationIs(reg);
      PairsAre(reg.runtimes);
    }
    hide OwnersOk, RuntimesOk, OwnershipOk, ActivationOk, PairsOk, AllOwnersNamed, AllRuntimesSafe, Matched, RunsOnly, AllApart;
  }

  // ---- Launching ----

  /** Its files and commits are the declared ones, and an active runtime's state file can be used. */
  predicate Prepared(r: Runtime, kind: Kind) {
    r.bindingsOk && (r.status.ActiveRuntime? ==> r.state.Payload? && (kind.Active? ==> r.state.usable))
  }

  /** What the row of one runtime reports, the first of these that applies. */
  lemma RowsReport(r: Runtime, kind: Kind)
    requires !kind.Unknown?
    ensures var d := Decide(r, kind);
            && (d.Blocked? <==> !r.bindingsOk)
            && (d.RetiredNotRoutable? <==> r.bindingsOk && r.status.Retired?)
            && (d.InactiveNotRoutable? <==> r.bindingsOk && r.status.Inactive?)
            && (d.RetryWithoutLaunch? <==> r.bindingsOk && r.status.ActiveRuntime? && !Prepared(r, kind))
            && (d.ReadyRoutable? <==> Prepared(r, kind) && r.status.ActiveRuntime? && r.routable)
            && (d.ReadyNotRoutable? <==> Prepared(r, kind) && r.status.ActiveRuntime? && !r.routable)
  {
  }

  lemma ReadyIsPrepared(r: Runtime, kind: Kind)
    requires !kind.Unknown? && SafeRuntime(r, kind) && (kind.Active? && r.status.ActiveRuntime? ==> r.routable)
    ensures RowReady(Decide(r, kind), kind) <==> Prepared(r, kind)
  {
    RowsReport(r, kind);
    hide Decide, Prepared;
  }

  lemma ActiveIsRouted(reg: Registry, i: nat)
    requires Sound(reg) && i < |reg.runtimes|
    ensures SafeRuntime(reg.runtimes[i], reg.kind)
    ensures reg.kind.Active? && reg.runtimes[i].status.ActiveRuntime? ==> reg.runtimes[i].routable
  {
    hide SafeRuntime, AllOwnersNamed, Matched, AllApart;
    if reg.kind.Active? {
      var only: nat :| RunsOnly(reg, only);
    }
  }

  /** In a sound registry all rows are ready exactly when every runtime is prepared; an active one then launches
      the one runtime it names, which reads public data only, never trades live and runs research modes only. */
  lemma LaunchesExactlyWhenPrepared(reg: Registry) returns (only: nat)
    requires Sound(reg)
    ensures AllReady(reg) <==> forall i :: 0 <= i < |reg.runtimes| ==> Prepared(reg.runtimes[i], reg.kind)
    ensures reg.kind.Active? ==>
              && RunsOnly(reg, only) && SafeRuntime(reg.runtimes[only], Active)
              && (AllReady(reg) ==> Launchable(reg.runtimes, Active) == [only])
  {
    forall i | 0 <= i < |reg.runtimes|
      ensures RowReady(Decide(reg.runtimes[i], reg.kind), reg.kind) <==> Prepared(reg.runtimes[i], reg.kind)
    {
      ActiveIsRouted(reg, i);
      ReadyIsPrepared(reg.runtimes[i], reg.kind);
    }
    hide Decide, RowReady, Prepared, AllOwnersNamed, AllRuntimesSafe, Matched, AllApart, StructureOk, MayLaunch;
    StructureIsSound(reg);
    only := 0;
    if reg.kind.Active? {
      only :| RunsOnly(reg, only);
      ActiveIsRouted(reg, only);
      var launched := LaunchIffAllReady(reg);
      assert reg.runtimes[launched].status.ActiveRuntime?;
    }
  }
}
