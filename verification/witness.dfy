/** Building one particular run step by step, together with what has to hold at each of its steps. */
module Witness {
  import opened RelayTypes
  import opened Protocol
  import opened Runs

  /** What a run has to meet when it takes an action in a world. */
  type Rule = (World, Action) -> bool

  /** The run `actions` follows the rule and ends in `w`. */
  ghost predicate Reaches(cfg: Config, rule: Rule, actions: seq<Action>, w: World) {
    Run(cfg, actions) == w && forall i :: 0 <= i < |actions| ==> rule(Run(cfg, actions[..i]), actions[i])
  }

  ghost predicate Reachable(cfg: Config, rule: Rule, w: World) {
    exists actions :: Reaches(cfg, rule, actions, w)
  }

  /** No rule but that of the system. */
  function Any(): Rule {
    (w: World, action: Action) => true
  }

  lemma Begins(cfg: Config, rule: Rule)
    ensures Reachable(cfg, rule, World(INITIAL, map[]))
  {
    assert Reaches(cfg, rule, [], World(INITIAL, map[]));
  }

  lemma Step(cfg: Config, rule: Rule, w: World, action: Action, next: World)
    requires Reachable(cfg, rule, w) && rule(w, action) && Next(cfg, w, action) == next
    ensures Reachable(cfg, rule, next)
  {
    hide Next;
    var actions :| Reaches(cfg, rule, actions, w);
    var longer := actions + [action];
    RunSnoc(cfg, actions, action);
    forall i | 0 <= i < |longer| ensures rule(Run(cfg, longer[..i]), longer[i]) {
      assert longer[..i] == actions[..i] && (i < |actions| ==> longer[i] == actions[i]);
      assert i == |actions| ==> longer[..i] == actions;
    }
    assert Reaches(cfg, rule, longer, next);
  }

  /** One step of thread `t`, which stands at `pc`. */
  lemma Moves(cfg: Config, rule: Rule, sh: Shared, threads: map<int, Pc>, t: int, pc: Pc, choice: Choice, next: Shared, to: Pc)
    requires Reachable(cfg, rule, World(sh, threads[t := pc])) && StepPc(cfg, sh, pc, choice) == (next, to)
    requires rule(World(sh, threads[t := pc]), Advance(t, choice))
    ensures Reachable(cfg, rule, World(next, threads[t := to]))
  {
    hide Reachable, StepPc;
    assert threads[t := pc][t := to] == threads[t := to];
    Step(cfg, rule, World(sh, threads[t := pc]), Advance(t, choice), World(next, threads[t := to]));
  }

  lemma Arrives(cfg: Config, rule: Rule, sh: Shared, threads: map<int, Pc>, t: int, request: Request, pc: Pc)
    requires Reachable(cfg, rule, World(sh, threads)) && t !in threads && Entry(sh, request) == pc
    requires rule(World(sh, threads), Spawn(t, request))
    ensures Reachable(cfg, rule, World(sh, threads[t := pc]))
  {
    hide Reachable, Entry;
    Step(cfg, rule, World(sh, threads), Spawn(t, request), World(sh, threads[t := pc]));
  }

  lemma Passes(cfg: Config, rule: Rule, sh: Shared, threads: map<int, Pc>, to: Time)
    requires Reachable(cfg, rule, World(sh, threads)) && sh.clock <= to
    requires rule(World(sh, threads), Tick(to))
    ensures Reachable(cfg, rule, World(sh.(clock := to), threads))
  {
    hide Reachable;
    Step(cfg, rule, World(sh, threads), Tick(to), World(sh.(clock := to), threads));
  }
}
