/**
 Which versions a run has activated (engine/core/strategy_versioning.py): a stored
 activation time is there exactly if some step of the run wrote the version as active.
 */
module Activation {
  import opened Wrappers
  import opened Versioning
  import opened Rollback

  /** The step writes version `id` as active. */
  predicate Activates(sys: System, a: Action, id: nat) {
    a.Step?
    && var o := Local(sys.reg, TaskOf(sys, a.t), a.now, a.newId);
       o.Write? && o.v.id == id && o.v.status.ACTIVE?
  }

  /** Some step of the run activated version `id`. */
  predicate EverActivated(actions: seq<Action>, id: nat) {
    actions != []
    && (EverActivated(actions[..|actions| - 1], id) || Activates(Run(actions[..|actions| - 1]), actions[|actions| - 1], id))
  }

  /** What a task writes: an activation, the stored activation time again, or a new version without one. */
  lemma WriteActivation(reg: Registry, task: Task, now: real, newId: nat)
    requires Indexed(reg) && TaskOk(reg, task) && Local(reg, task, now, newId).Write?
    ensures var v := Local(reg, task, now, newId).v;
            if v.status.ACTIVE? then v.id in reg.byId && v.activatedAt == Some(now)
            else if v.id in reg.byId then reg.byId[v.id].activatedAt == v.activatedAt
            else v.activatedAt.None?
  {
    if task.ActivateSave? && task.pending != [] {
      assert task.pending[0] in task.pending;
    }
  }

  ghost predicate TimesTell(reg: Registry, actions: seq<Action>, id: nat) {
    EverActivated(actions, id) <==> id in reg.byId && reg.byId[id].activatedAt.Some?
  }

  lemma StepTells(sys: System, a: Action, init: seq<Action>, id: nat)
    requires sys == Run(init) && TimesTell(sys.reg, init, id)
    requires Indexed(sys.reg) && (a.Step? ==> TaskOk(sys.reg, TaskOf(sys, a.t)))
    ensures TimesTell(Act(sys, a).reg, init + [a], id)
  {
    hide Run, Local;
    assert (init + [a])[..|init|] == init;
    if a.Step? {
      var o := Local(sys.reg, TaskOf(sys, a.t), a.now, a.newId);
      if o.Write? {
        WriteActivation(sys.reg, TaskOf(sys, a.t), a.now, a.newId);
      }
    }
  }

  /** In every reachable state a version carries an activation time exactly if the run activated it. */
  lemma {:induction false} ActivationTimeIff(actions: seq<Action>, id: nat)
    ensures EverActivated(actions, id) <==>
            id in Run(actions).reg.byId && Run(actions).reg.byId[id].activatedAt.Some?
  {
    if actions != [] {
      var init := actions[..|actions| - 1];
      ActivationTimeIff(init, id);
      EveryStateSafe(init);
      assert actions == init + [actions[|actions| - 1]];
      var last := actions[|actions| - 1];
      if last.Step? {
        InvAt(Run(init), last.t);
      }
      StepTells(Run(init), last, init, id);
    }
  }

  /** In every interleaving a rollback promotes only a version that the run has activated before. */
  lemma NeverLiveIsNeverTarget(actions: seq<Action>, t: nat, previous: Version)
    requires TaskOf(Run(actions), t) == RollbackPromote(previous)
             || exists active :: TaskOf(Run(actions), t) == RollbackRetire(active, previous)
    ensures EverActivated(actions, previous.id) && previous.status.RETIRED?
  {
    EveryStateSafe(actions);
    InvAt(Run(actions), t);
    ActivationTimeIff(actions, previous.id);
  }
}
