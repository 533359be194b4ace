/** What a run does to one of its calls. */
module Runs {
  import opened Lifecycle
  import opened Ports
  import opened Wrappers

  predicate StepsTo(cfg: Config, w: World, i: nat, ev: CallEvent, d: Call) {
    && i < |w.calls|
    && CallStep(cfg, w.alloc, w.calls[i], ev).Some?
    && d == CallStep(cfg, w.alloc, w.calls[i], ev).value.1
  }

  /** What one action does to call i: its own step, or nothing; or the call is created. */
  lemma ActionOn(cfg: Config, w: World, act: Action, i: nat)
    requires Step(cfg, w, act).Some? && i < |Step(cfg, w, act).value.calls|
    ensures act.Act? && act.i == i ==> StepsTo(cfg, w, i, act.ev, Step(cfg, w, act).value.calls[i])
    ensures !(act.Act? && act.i == i) && i < |w.calls| ==> Step(cfg, w, act).value.calls[i] == w.calls[i]
    ensures i >= |w.calls| ==> act.Spawn? && Step(cfg, w, act).value.calls[i] == NewCall(act.id, act.dialog)
  {
  }

  lemma CallsStay(cfg: Config, w: World, act: Action)
    requires Step(cfg, w, act).Some?
    ensures |w.calls| <= |Step(cfg, w, act).value.calls|
    ensures act.Act? ==> act.i < |w.calls|
  {
  }

  /** Every step call i takes in the run is taken where ok holds. */
  ghost predicate AtEach(cfg: Config, w: World, acts: seq<Action>, i: nat, ok: (Call, CallEvent) -> bool)
    decreases |acts|
  {
    if acts == [] then true
    else
      var init, act := acts[..|acts| - 1], acts[|acts| - 1];
      && AtEach(cfg, w, init, i, ok)
      && (act.Act? && act.i == i && Run(cfg, w, init).Some? && i < |Run(cfg, w, init).value.calls|
          ==> ok(Run(cfg, w, init).value.calls[i], act.ev))
  }

  lemma Untouched(cfg: Config, w: World, acts: seq<Action>, i: nat, ok: (Call, CallEvent) -> bool)
    requires Run(cfg, w, acts).Some? && |Run(cfg, w, acts).value.calls| <= i
    ensures AtEach(cfg, w, acts, i, ok)
    decreases |acts|
  {
    if acts != [] {
      var init := acts[..|acts| - 1];
      CallsStay(cfg, Run(cfg, w, init).value, acts[|acts| - 1]);
      Untouched(cfg, w, init, i, ok);
    }
  }

  lemma {:induction false} SameSteps(cfg: Config, w: World, acts: seq<Action>, i: nat,
                                     ok: (Call, CallEvent) -> bool, ok': (Call, CallEvent) -> bool)
    requires AtEach(cfg, w, acts, i, ok) && forall c, ev :: ok(c, ev) ==> ok'(c, ev)
    ensures AtEach(cfg, w, acts, i, ok')
    decreases |acts|
  {
    if acts != [] {
      SameSteps(cfg, w, acts[..|acts| - 1], i, ok, ok');
    }
  }

  // ----- Invariants of one call ----------------------------------------------

  ghost predicate Preserved(cfg: Config, inv: Call -> bool) {
    forall a, c, ev | inv(c) && CallStep(cfg, a, c, ev).Some? :: inv(CallStep(cfg, a, c, ev).value.1)
  }

  ghost predicate Initial(inv: Call -> bool) {
    forall id, dialog :: inv(NewCall(id, dialog))
  }

  lemma {:induction false} Invariant(cfg: Config, min: int, max: int, acts: seq<Action>, i: nat, inv: Call -> bool)
    requires Run(cfg, Start(min, max), acts).Some? && i < |Run(cfg, Start(min, max), acts).value.calls|
    requires Initial(inv) && Preserved(cfg, inv)
    ensures inv(Run(cfg, Start(min, max), acts).value.calls[i])
    decreases |acts|
  {
    if acts != [] {
      var n := |acts| - 1;
      var w := Run(cfg, Start(min, max), acts[..n]).value;
      ActionOn(cfg, w, acts[n], i);
      if i < |w.calls| {
        Invariant(cfg, min, max, acts[..n], i, inv);
      }
    }
  }
}
