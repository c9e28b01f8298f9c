/**
 * The script container of engine/old_src/core/scripting/script.h. An
 * entity's Scripts component holds its scripts in order and a queue of
 * deferred actions; an action is an event of one script interface, and
 * invoking it calls every script that implements that interface.
 *
 * A script is known by the hash of its type name and by the interface
 * types it implements (the base type first). What a handler does is a
 * parameter: `react(script, action)` is the actions it posts through
 * AddAction. Handlers are taken not to add or remove scripts; the
 * container's snapshot in Invoke makes the iteration independent of that
 * anyway.
 */
module Scripting {
  import Wrappers

  /** The interfaces a script can implement (ScriptType). */
  datatype ScriptType =
    | Base | Draw | Window | GameSize | DisplaySize | Key | GlobalMouse | Mouse
    | Drag | Dropzone | Animation | PlayerMove | Overlap | Collision | Button | Tween

  /** A script instance: its type's hash and the interface types it
   *  implements, the base type first. */
  datatype ScriptInstance = ScriptInstance(hash: nat, types: seq<ScriptType>)

  /** A deferred event of one interface. */
  datatype Action = Action(interface: ScriptType, event: nat)

  /** The interface types of a script with the given interfaces (Extract). */
  function ScriptTypes(interfaces: seq<ScriptType>): (r: seq<ScriptType>)
    ensures |r| == |interfaces| + 1 && r[0] == Base && r[1..] == interfaces
    ensures forall t :: t in r <==> t == Base || t in interfaces
  {
    [Base] + interfaces
  }

  /** Some script implements the interface. */
  predicate Listens(scripts: seq<ScriptInstance>, t: ScriptType)
  {
    exists i :: 0 <= i < |scripts| && t in scripts[i].types
  }

  /** Some script has the type hash. */
  predicate Contains(scripts: seq<ScriptInstance>, hash: nat)
  {
    exists i :: 0 <= i < |scripts| && scripts[i].hash == hash
  }

  /** The scripts without those of the type hash, the rest in order. */
  function Without(scripts: seq<ScriptInstance>, hash: nat): (r: seq<ScriptInstance>)
    ensures |r| <= |scripts|
  {
    if |scripts| == 0 then []
    else
      var rest := Without(scripts[..|scripts| - 1], hash);
      var last := scripts[|scripts| - 1];
      if last.hash == hash then rest else rest + [last]
  }

  lemma {:induction false} WithoutMembers(scripts: seq<ScriptInstance>, hash: nat)
    ensures forall x :: x in Without(scripts, hash) <==> x in scripts && x.hash != hash
  {
    if |scripts| > 0 {
      var init := scripts[..|scripts| - 1];
      WithoutMembers(init, hash);
      assert scripts == init + [scripts[|scripts| - 1]];
    }
  }

  /** After the removal no script of that type is left, and no other was
   *  removed. */
  lemma WithoutRemovesExactly(scripts: seq<ScriptInstance>, hash: nat)
    ensures !Contains(Without(scripts, hash), hash)
    ensures forall x :: x in scripts && x.hash != hash ==> x in Without(scripts, hash)
  {
    WithoutMembers(scripts, hash);
  }

  /** Removal distributes over concatenation: the remaining scripts keep
   *  their order. */
  lemma {:induction false} WithoutConcat(a: seq<ScriptInstance>, b: seq<ScriptInstance>, hash: nat)
    ensures Without(a + b, hash) == Without(a, hash) + Without(b, hash)
    decreases |b|
  {
    if |b| > 0 {
      var init := b[..|b| - 1];
      assert (a + b)[..|a + b| - 1] == a + init;
      WithoutConcat(a, init, hash);
    } else {
      assert a + b == a;
    }
  }

  /** Removing twice is removing once. */
  lemma {:induction false} WithoutIdempotent(scripts: seq<ScriptInstance>, hash: nat)
    ensures Without(Without(scripts, hash), hash) == Without(scripts, hash)
  {
    if |scripts| > 0 {
      var init := scripts[..|scripts| - 1];
      var last := scripts[|scripts| - 1];
      WithoutIdempotent(init, hash);
      if last.hash != hash {
        var rest := Without(init, hash);
        assert (rest + [last])[..|rest + [last]| - 1] == rest;
      }
    }
  }

  /** The scripts that implement the interface, in order. */
  function Handlers(scripts: seq<ScriptInstance>, t: ScriptType): (r: seq<ScriptInstance>)
    ensures |r| <= |scripts|
  {
    if |scripts| == 0 then []
    else
      var rest := Handlers(scripts[..|scripts| - 1], t);
      var last := scripts[|scripts| - 1];
      if t in last.types then rest + [last] else rest
  }

  lemma {:induction false} HandlersMembers(scripts: seq<ScriptInstance>, t: ScriptType)
    ensures forall x :: x in Handlers(scripts, t) <==> x in scripts && t in x.types
  {
    if |scripts| > 0 {
      var init := scripts[..|scripts| - 1];
      HandlersMembers(init, t);
      assert scripts == init + [scripts[|scripts| - 1]];
    }
  }

  /** The posted actions AddAction admits: those some script listens to. */
  function Admitted(scripts: seq<ScriptInstance>, posted: seq<Action>): (r: seq<Action>)
    ensures |r| <= |posted|
  {
    if |posted| == 0 then []
    else
      var rest := Admitted(scripts, posted[..|posted| - 1]);
      var last := posted[|posted| - 1];
      if Listens(scripts, last.interface) then rest + [last] else rest
  }

  lemma {:induction false} AdmittedMembers(scripts: seq<ScriptInstance>, posted: seq<Action>)
    ensures forall x :: x in Admitted(scripts, posted) <==> x in posted && Listens(scripts, x.interface)
  {
    if |posted| > 0 {
      var init := posted[..|posted| - 1];
      AdmittedMembers(scripts, init);
      assert posted == init + [posted[|posted| - 1]];
    }
  }

  /** The actions queued by invoking `a` on the snapshot `called` of the
   *  scripts: each implementing script in turn posts its reactions. */
  function InvokeEffect(scripts: seq<ScriptInstance>, called: seq<ScriptInstance>, a: Action,
                        react: (ScriptInstance, Action) -> seq<Action>): seq<Action>
  {
    if |called| == 0 then []
    else
      var rest := InvokeEffect(scripts, called[..|called| - 1], a, react);
      var last := called[|called| - 1];
      if a.interface in last.types then rest + Admitted(scripts, react(last, a)) else rest
  }

  /** The actions queued by one round of InvokeActions over `current`. */
  function Round(scripts: seq<ScriptInstance>, current: seq<Action>,
                 react: (ScriptInstance, Action) -> seq<Action>): seq<Action>
  {
    if |current| == 0 then []
    else Round(scripts, current[..|current| - 1], react) + InvokeEffect(scripts, scripts, current[|current| - 1], react)
  }

  /** Every handler posts only actions of lower rank than the one it
   *  handles, so the action rounds end. */
  ghost predicate RankDecreases(react: (ScriptInstance, Action) -> seq<Action>, rank: Action -> nat)
  {
    forall s, a, b :: b in react(s, a) ==> rank(b) < rank(a)
  }

  /** The largest rank in the queue, 0 for an empty one. */
  function MaxRank(actions: seq<Action>, rank: Action -> nat): (m: nat)
    ensures forall k :: 0 <= k < |actions| ==> rank(actions[k]) <= m
  {
    if |actions| == 0 then 0
    else
      var m := MaxRank(actions[..|actions| - 1], rank);
      var r := rank(actions[|actions| - 1]);
      assert forall k :: 0 <= k < |actions| - 1 ==> actions[k] == actions[..|actions| - 1][k];
      if r > m then r else m
  }

  /** The number of rounds still to come is bounded by the queue's rank. */
  function Pending(actions: seq<Action>, rank: Action -> nat): nat
  {
    if |actions| == 0 then 0 else MaxRank(actions, rank) + 1
  }

  lemma {:induction false} InvokeEffectRank(scripts: seq<ScriptInstance>, called: seq<ScriptInstance>, a: Action,
                                            react: (ScriptInstance, Action) -> seq<Action>, rank: Action -> nat)
    requires RankDecreases(react, rank)
    ensures forall x :: x in InvokeEffect(scripts, called, a, react) ==> rank(x) < rank(a)
  {
    if |called| > 0 {
      var last := called[|called| - 1];
      InvokeEffectRank(scripts, called[..|called| - 1], a, react, rank);
      AdmittedMembers(scripts, react(last, a));
    }
  }

  /** Every action a round queues ranks below some action of the round. */
  lemma {:induction false} RoundLowersRank(scripts: seq<ScriptInstance>, current: seq<Action>,
                                           react: (ScriptInstance, Action) -> seq<Action>, rank: Action -> nat)
    requires RankDecreases(react, rank) && |current| > 0
    ensures forall x :: x in Round(scripts, current, react) ==> rank(x) < MaxRank(current, rank)
  {
    var init := current[..|current| - 1];
    var last := current[|current| - 1];
    InvokeEffectRank(scripts, scripts, last, react, rank);
    if |init| > 0 {
      RoundLowersRank(scripts, init, react, rank);
      assert MaxRank(init, rank) <= MaxRank(current, rank);
    }
    assert rank(last) <= MaxRank(current, rank);
  }

  /** Everything a round queues is listened to by some script. */
  lemma {:induction false} RoundAdmitsOnlyListened(scripts: seq<ScriptInstance>, current: seq<Action>,
                                                   react: (ScriptInstance, Action) -> seq<Action>)
    ensures forall x :: x in Round(scripts, current, react) ==> Listens(scripts, x.interface)
  {
    if |current| > 0 {
      RoundAdmitsOnlyListened(scripts, current[..|current| - 1], react);
      InvokeEffectListened(scripts, scripts, current[|current| - 1], react);
    }
  }

  lemma {:induction false} InvokeEffectListened(scripts: seq<ScriptInstance>, called: seq<ScriptInstance>, a: Action,
                                                react: (ScriptInstance, Action) -> seq<Action>)
    ensures forall x :: x in InvokeEffect(scripts, called, a, react) ==> Listens(scripts, x.interface)
  {
    if |called| > 0 {
      InvokeEffectListened(scripts, called[..|called| - 1], a, react);
      AdmittedMembers(scripts, react(called[|called| - 1], a));
    }
  }

  class Scripts {
    var scripts: seq<ScriptInstance>
    var actions: seq<Action>

    constructor ()
      ensures scripts == [] && actions == []
    {
      scripts := [];
      actions := [];
    }

    method ClearActions()
      modifies this`actions
      ensures actions == []
    {
      actions := [];
    }

    /** AddAction: queue the action only when some script listens to its
     *  interface. */
    method AddAction(a: Action)
      modifies this`actions
      ensures actions == old(actions) + Admitted(scripts, [a])
      ensures Listens(scripts, a.interface) ==> actions == old(actions) + [a]
      ensures !Listens(scripts, a.interface) ==> actions == old(actions)
    {
      assert [a][..0] == [];
      var listened := false;
      var i := 0;
      while i < |scripts|
        invariant 0 <= i <= |scripts|
        invariant listened <==> exists j :: 0 <= j < i && a.interface in scripts[j].types
      {
        if a.interface in scripts[i].types {
          listened := true;
          break;
        }
        i := i + 1;
      }
      if !listened {
        return;
      }
      actions := actions + [a];
    }

    /** Queue each of the posted actions in turn. */
    method AddActions(posted: seq<Action>)
      modifies this`actions
      ensures actions == old(actions) + Admitted(scripts, posted)
    {
      var k := 0;
      while k < |posted|
        invariant 0 <= k <= |posted|
        invariant actions == old(actions) + Admitted(scripts, posted[..k])
      {
        AddAction(posted[k]);
        assert posted[..k + 1][..k] == posted[..k];
        k := k + 1;
      }
      assert posted[..|posted|] == posted;
    }

    /** Invoke: call every script of a snapshot of the container that
     *  implements the action's interface, in order; `called` is the
     *  scripts called. */
    method Invoke(a: Action, react: (ScriptInstance, Action) -> seq<Action>) returns (called: seq<ScriptInstance>)
      modifies this`actions
      ensures called == Handlers(scripts, a.interface)
      ensures actions == old(actions) + InvokeEffect(scripts, scripts, a, react)
    {
      var snapshot := scripts;
      called := [];
      var i := 0;
      while i < |snapshot|
        invariant 0 <= i <= |snapshot|
        invariant called == Handlers(snapshot[..i], a.interface)
        invariant actions == old(actions) + InvokeEffect(scripts, snapshot[..i], a, react)
      {
        assert snapshot[..i + 1][..i] == snapshot[..i];
        if a.interface in snapshot[i].types {
          AddActions(react(snapshot[i], a));
          called := called + [snapshot[i]];
        }
        i := i + 1;
      }
      assert snapshot[..|snapshot|] == snapshot;
    }

    /** One round of InvokeActions: take the queue and invoke its actions
     *  in order; what they post forms the next queue. */
    method InvokeRound(react: (ScriptInstance, Action) -> seq<Action>)
      modifies this`actions
      ensures actions == Round(scripts, old(actions), react)
    {
      var current := actions;
      ClearActions();
      var k := 0;
      while k < |current|
        invariant 0 <= k <= |current|
        invariant actions == Round(scripts, current[..k], react)
      {
        assert current[..k + 1][..k] == current[..k];
        var _ := Invoke(current[k], react);
        k := k + 1;
      }
      assert current[..|current|] == current;
    }

    /** InvokeActions: repeat rounds until no action is queued. */
    method InvokeActions(react: (ScriptInstance, Action) -> seq<Action>, ghost rank: Action -> nat)
      requires RankDecreases(react, rank)
      modifies this`actions
      ensures actions == []
    {
      while actions != []
        decreases Pending(actions, rank)
      {
        ghost var before := actions;
        InvokeRound(react);
        RoundLowersRank(scripts, before, react, rank);
        if actions != [] {
          assert rank(actions[|actions| - 1]) <= MaxRank(actions, rank);
          assert MaxRank(actions, rank) < MaxRank(before, rank) by {
            MaxRankAttained(actions, rank);
          }
        }
      }
    }

    /** AddScript: append a new script. */
    method AddScript(s: ScriptInstance)
      modifies this`scripts
      ensures scripts == old(scripts) + [s]
      ensures Contains(scripts, s.hash)
    {
      scripts := scripts + [s];
      assert scripts[|scripts| - 1] == s;
    }

    /** HasScript: some script has the type hash. */
    method HasScript(hash: nat) returns (r: bool)
      ensures r <==> Contains(scripts, hash)
    {
      r := false;
      var i := 0;
      while i < |scripts|
        invariant 0 <= i <= |scripts|
        invariant !r && forall j :: 0 <= j < i ==> scripts[j].hash != hash
      {
        if scripts[i].hash == hash {
          return true;
        }
        i := i + 1;
      }
    }

    /** RemoveScripts: drop every script of the type hash, keeping the
     *  order of the rest. */
    method RemoveScripts(hash: nat)
      modifies this`scripts
      ensures scripts == Without(old(scripts), hash)
      ensures !Contains(scripts, hash)
    {
      WithoutRemovesExactly(scripts, hash);
      scripts := Without(scripts, hash);
    }

    /** ConditionCheck: true iff every script implementing the interface
     *  answers true. */
    method ConditionCheck(t: ScriptType, check: ScriptInstance -> bool) returns (r: bool)
      ensures r <==> forall i :: 0 <= i < |scripts| && t in scripts[i].types ==> check(scripts[i])
    {
      var snapshot := scripts;
      var i := 0;
      while i < |snapshot|
        invariant 0 <= i <= |snapshot|
        invariant forall j :: 0 <= j < i && t in snapshot[j].types ==> check(snapshot[j])
      {
        if t in snapshot[i].types && !check(snapshot[i]) {
          return false;
        }
        i := i + 1;
      }
      return true;
    }
  }

  lemma {:induction false} MaxRankAttained(actions: seq<Action>, rank: Action -> nat)
    requires |actions| > 0
    ensures exists k :: 0 <= k < |actions| && rank(actions[k]) == MaxRank(actions, rank)
  {
    var init := actions[..|actions| - 1];
    var last := |actions| - 1;
    if |init| == 0 || rank(actions[last]) > MaxRank(init, rank) {
      assert rank(actions[last]) == MaxRank(actions, rank);
    } else {
      MaxRankAttained(init, rank);
      var k :| 0 <= k < |init| && rank(init[k]) == MaxRank(init, rank);
      assert actions[k] == init[k];
    }
  }

  /** An entity: it has a Scripts component once a script was added. */
  class ScriptedEntity {
    var hasScripts: bool
    const container: Scripts

    ghost predicate Valid()
      reads this, container
    {
      !hasScripts ==> container.scripts == [] && container.actions == []
    }

    constructor ()
      ensures Valid() && !hasScripts
    {
      hasScripts := false;
      container := new Scripts();
    }

    /** HasScript(entity): the entity has the component and a script of
     *  the type. */
    method HasScript(hash: nat) returns (r: bool)
      requires Valid()
      ensures r <==> Contains(container.scripts, hash)
    {
      if !hasScripts {
        return false;
      }
      r := container.HasScript(hash);
    }

    /** AddScript(entity): add the component if missing and append the
     *  script. */
    method AddScript(s: ScriptInstance)
      requires Valid()
      modifies this`hasScripts, container`scripts
      ensures Valid() && hasScripts
      ensures container.scripts == old(container.scripts) + [s]
    {
      hasScripts := true;
      container.AddScript(s);
    }

    /** TryAddScript: AddScript unless a script of the type is there. */
    method TryAddScript(s: ScriptInstance)
      requires Valid()
      modifies this`hasScripts, container`scripts
      ensures Valid() && hasScripts
      ensures Contains(old(container.scripts), s.hash) ==> container.scripts == old(container.scripts)
      ensures !Contains(old(container.scripts), s.hash) ==> container.scripts == old(container.scripts) + [s]
      ensures Contains(container.scripts, s.hash)
    {
      hasScripts := true;
      var present := container.HasScript(s.hash);
      if present {
        return;
      }
      container.AddScript(s);
    }

    /** RemoveScripts(entity): remove the scripts of the type when the
     *  entity has any. */
    method RemoveScripts(hash: nat)
      requires Valid()
      modifies container`scripts
      ensures Valid()
      ensures container.scripts == Without(old(container.scripts), hash)
      ensures !Contains(container.scripts, hash)
    {
      if !hasScripts {
        return;
      }
      var present := container.HasScript(hash);
      if !present {
        NothingToRemove(container.scripts, hash);
        return;
      }
      container.RemoveScripts(hash);
    }
  }

  /** Without a script of the type hash, removal changes nothing; this is
   *  why the entity-level check before removing is only a shortcut. */
  lemma {:induction false} NothingToRemove(scripts: seq<ScriptInstance>, hash: nat)
    requires !Contains(scripts, hash)
    ensures Without(scripts, hash) == scripts
  {
    if |scripts| > 0 {
      var init := scripts[..|scripts| - 1];
      NothingToRemove(init, hash);
      assert scripts == init + [scripts[|scripts| - 1]];
    }
  }

  // ------------------------------------------------------------- registry

  /** ScriptRegistry: a factory per type-name hash; a later registration
   *  of the same hash replaces the earlier one. */
  class ScriptRegistry {
    var registry: map<nat, ScriptInstance>

    constructor ()
      ensures registry == map[]
    {
      registry := map[];
    }

    method Register(hash: nat, made: ScriptInstance)
      modifies this
      ensures registry == old(registry)[hash := made]
    {
      registry := registry[hash := made];
    }

    /** Create: a new script from the factory, none for an unknown hash. */
    function Create(hash: nat): (r: Wrappers.Option<ScriptInstance>)
      reads this
      ensures r.Some? <==> hash in registry
      ensures r.Some? ==> r.value == registry[hash]
    {
      if hash in registry then Wrappers.Some(registry[hash]) else Wrappers.None
    }
  }

  /** A registration is found by Create and leaves every other hash alone. */
  lemma RegisterThenCreate(registry: map<nat, ScriptInstance>, hash: nat, made: ScriptInstance, other: nat)
    requires other != hash
    ensures var after := registry[hash := made];
            hash in after && after[hash] == made &&
            (other in after <==> other in registry) && (other in registry ==> after[other] == registry[other])
  {
  }
}
