/** The registry's two indexes stay in agreement with each other and with the calls. */
module Registered {
  import opened Lifecycle
  import opened Ports
  import opened Registry
  import opened Teardown
  import opened Wrappers

  /** Not deregistered yet. */
  predicate Live(c: Call) {
    !c.undo.winner.Byes? && !c.undo.winner.Finished?
  }

  /** Both indexes hold call k under its ids if it is live, and neither does if it is not. */
  ghost predicate Indexed(x: Index<nat>, c: Call, k: nat) {
    && (Live(c) ==> c.id in x.m && x.m[c.id] == k)
    && (!Live(c) ==> c.id !in x.m)
    && (c.dialog != "" && Live(c) ==> c.dialog in x.byDialog && x.byDialog[c.dialog] == k)
    && (c.dialog != "" && !Live(c) ==> c.dialog !in x.byDialog)
  }

  predicate Distinct(c: Call, d: Call) {
    c.id != d.id && (c.dialog != "" ==> c.dialog != d.dialog)
  }

  /** Every entry of an index is one of the calls. */
  ghost predicate NoStrays(w: World) {
    && (forall id | id in w.registry.m :: w.registry.m[id] < |w.calls| && w.calls[w.registry.m[id]].id == id)
    && (forall d | d in w.registry.byDialog ::
          d != "" && w.registry.byDialog[d] < |w.calls| && w.calls[w.registry.byDialog[d]].dialog == d)
  }

  ghost predicate RegInv(w: World) {
    && (forall k | 0 <= k < |w.calls| :: Indexed(w.registry, w.calls[k], k))
    && (forall j, k | 0 <= j < |w.calls| && 0 <= k < |w.calls| && j != k :: Distinct(w.calls[j], w.calls[k]))
    && NoStrays(w)
  }

  lemma SpawnIndexed(w: World, id: string, dialog: string, v: World)
    requires RegInv(w) && FreshIds(w, id, dialog)
    requires v == World(w.alloc, w.calls + [NewCall(id, dialog)],
                        AddDialog(Add(w.registry, id, |w.calls|), dialog, |w.calls|))
    ensures RegInv(v)
  {
    forall k | 0 <= k < |v.calls| ensures Indexed(v.registry, v.calls[k], k) {
      if k < |w.calls| {
        assert Indexed(w.registry, w.calls[k], k);
      }
    }
  }

  /** A step that is not the deregistration keeps a call's ids and its liveness. */
  lemma LiveStep(cfg: Config, a: Alloc, c: Call, ev: CallEvent)
    requires LogInv(c) && CallStep(cfg, a, c, ev).Some?
    ensures var d := CallStep(cfg, a, c, ev).value.1;
      d.id == c.id && d.dialog == c.dialog && (if Deregisters(c, ev) then Live(c) && !Live(d) else Live(d) == Live(c))
  {
    match ev
    case OfBridge(b) => if UsesAlloc(b) { LiveAlloc(cfg, a, c, b); } else { LiveQuiet(cfg, c, b); }
    case OfOther(o) => LiveOther(cfg, a, c, o);
  }

  lemma LiveQuiet(cfg: Config, c: Call, ev: BridgeEvent)
    requires LogInv(c) && Quiet(cfg, c, ev).Some?
    ensures var d := Quiet(cfg, c, ev).value; d.id == c.id && d.dialog == c.dialog && Live(d) == Live(c)
  {
  }

  lemma LiveAlloc(cfg: Config, a: Alloc, c: Call, ev: BridgeEvent)
    requires UsesAlloc(ev) && AllocStep(cfg, a, c, ev).Some?
    ensures var d := AllocStep(cfg, a, c, ev).value.1; d.id == c.id && d.dialog == c.dialog && Live(d) == Live(c)
  {
  }

  lemma LiveOther(cfg: Config, a: Alloc, c: Call, ev: OtherEvent)
    requires LogInv(c) && Other(cfg, a, c, ev).Some?
    ensures var d := Other(cfg, a, c, ev).value.1;
      d.id == c.id && d.dialog == c.dialog
      && (if Deregisters(c, OfOther(ev)) then Live(c) && !Live(d) else Live(d) == Live(c))
  {
  }

  lemma KeptIndexed(w: World, i: nat, d: Call, v: World)
    requires RegInv(w) && i < |w.calls| && d.id == w.calls[i].id && d.dialog == w.calls[i].dialog
    requires Live(d) == Live(w.calls[i]) && v.calls == w.calls[i := d] && v.registry == w.registry
    ensures RegInv(v)
  {
    forall k | 0 <= k < |v.calls| ensures Indexed(v.registry, v.calls[k], k) {
      assert Indexed(w.registry, w.calls[k], k);
    }
    forall j, k | 0 <= j < |v.calls| && 0 <= k < |v.calls| && j != k ensures Distinct(v.calls[j], v.calls[k]) {
      assert Distinct(w.calls[j], w.calls[k]);
    }
  }

  lemma RemovedIndexed(w: World, i: nat, d: Call, v: World)
    requires RegInv(w) && i < |w.calls| && d.id == w.calls[i].id && d.dialog == w.calls[i].dialog && !Live(d)
    requires v.calls == w.calls[i := d] && v.registry == Remove(w.registry, d.id, d.dialog)
    ensures RegInv(v)
  {
    forall k | 0 <= k < |v.calls| ensures Indexed(v.registry, v.calls[k], k) {
      assert Indexed(w.registry, w.calls[k], k);
      if k != i {
        assert Distinct(w.calls[k], w.calls[i]);
      }
    }
    forall j, k | 0 <= j < |v.calls| && 0 <= k < |v.calls| && j != k ensures Distinct(v.calls[j], v.calls[k]) {
      assert Distinct(w.calls[j], w.calls[k]);
    }
  }

  lemma RegStep(cfg: Config, w: World, act: Action)
    requires RegInv(w) && Step(cfg, w, act).Some? && (act.Act? ==> LogInv(w.calls[act.i]))
    ensures RegInv(Step(cfg, w, act).value)
  {
    var v := Step(cfg, w, act).value;
    match act
    case Spawn(id, dialog) => SpawnIndexed(w, id, dialog, v);
    case Act(i, ev) =>
      var d := CallStep(cfg, w.alloc, w.calls[i], ev).value.1;
      LiveStep(cfg, w.alloc, w.calls[i], ev);
      if Deregisters(w.calls[i], ev) {
        RemovedIndexed(w, i, d, v);
      } else {
        KeptIndexed(w, i, d, v);
      }
  }

  lemma {:induction false} RegHolds(cfg: Config, min: int, max: int, acts: seq<Action>)
    requires Run(cfg, Start(min, max), acts).Some?
    ensures RegInv(Run(cfg, Start(min, max), acts).value)
    decreases |acts|
  {
    if acts != [] {
      var n := |acts| - 1;
      RegHolds(cfg, min, max, acts[..n]);
      if acts[n].Act? {
        TearHolds(cfg, min, max, acts[..n], acts[n].i);
      }
      RegStep(cfg, Run(cfg, Start(min, max), acts[..n]).value, acts[n]);
    }
  }

  /** Call k is found by its id just when it is found by its dialog, and both find k; a call
      whose teardown has deregistered it is found by neither. */
  ghost predicate Agree(w: World, k: nat)
    requires k < |w.calls|
  {
    var (x, c) := (w.registry, w.calls[k]);
    && (c.id in x.m <==> Live(c))
    && (c.id in x.m ==> x.m[c.id] == k)
    && (c.dialog != "" ==> (c.dialog in x.byDialog <==> c.id in x.m))
    && (c.dialog != "" && c.dialog in x.byDialog ==> x.byDialog[c.dialog] == k)
  }

  /** In every reachable world the two indexes agree on every call and hold nothing else. */
  lemma IndexesAgree(cfg: Config, min: int, max: int, acts: seq<Action>)
    requires Run(cfg, Start(min, max), acts).Some?
    ensures NoStrays(Run(cfg, Start(min, max), acts).value)
    ensures forall k: nat | k < |Run(cfg, Start(min, max), acts).value.calls| ::
              Agree(Run(cfg, Start(min, max), acts).value, k)
  {
    RegHolds(cfg, min, max, acts);
    var w := Run(cfg, Start(min, max), acts).value;
    forall k: nat | k < |w.calls| ensures Agree(w, k) {
      assert Indexed(w.registry, w.calls[k], k);
    }
  }
}
