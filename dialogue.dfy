/**
 * The tutorial dialogue of src/game/config/DialogueConfig.ts: the configured triggers, the
 * rule that decides whether a trigger fires for a level-start or deploy event, and the
 * manager that remembers fired triggers and counts deployments per tower type.
 *
 * `Math.random` is a parameter: one draw in [0, 1) per trigger for its probability gate, and
 * one draw for the choice of message.
 */
module Dialogue {
  import opened Wrappers

  /** The event a trigger answers. */
  datatype TriggerKind = LevelStart | FirstDeploy | Deploy

  /** The event the game reports to `checkTrigger`. */
  datatype EventKind = OnLevelStart | OnDeploy

  /** The context of an event: the level being started, or the tower type being deployed. */
  datatype Context = Context(levelId: string, towerType: string)

  /** Optional conditions of a trigger. */
  datatype Condition = Condition(towerType: Option<string>, levelId: Option<string>, isFirstTime: Option<bool>)

  /** One configured trigger: its id and kind, its condition, the messages it may say, the
      chance it fires, and whether it may fire only once. */
  datatype Trigger = Trigger(id: string, kind: TriggerKind, condition: Option<Condition>,
                             messages: seq<string>, probability: real, onceOnly: bool)

  /** The dialogue configuration, in order. The message texts are stand-ins; only how many
      messages each trigger has matters here. */
  const Config: seq<Trigger> := [
    Trigger("levelStart_demo", LevelStart, Some(Condition(None, Some("level_1"), None)),
            ["welcome"], 1.0, true),
    Trigger("firstDeploy_neutrophil", FirstDeploy, Some(Condition(Some("neutrophil"), None, Some(true))),
            ["neutrophil introduction"], 1.0, true),
    Trigger("firstDeploy_bcell", FirstDeploy, Some(Condition(Some("bcell"), None, Some(true))),
            ["bcell introduction"], 1.0, true),
    Trigger("deploy_neutrophil", Deploy, Some(Condition(Some("neutrophil"), None, Some(false))),
            ["neutrophil tip 1", "neutrophil tip 2"], 0.1, false),
    Trigger("deploy_bcell", Deploy, Some(Condition(Some("bcell"), None, Some(false))),
            ["bcell tip 1", "bcell tip 2"], 0.1, false)
  ]

  /** A condition field counts only when present and not the empty string (JavaScript
      truthiness). */
  predicate Given(o: Option<string>)
  {
    o.Some? && o.value != ""
  }

  /** `deploymentCount.get(type) || 0`. */
  function Count(counts: map<string, nat>, towerType: string): nat
  {
    if towerType in counts then counts[towerType] else 0
  }

  /** The type test of `shouldTrigger`: equal kinds, or a first-deploy trigger on a deploy event. */
  predicate KindMatches(k: TriggerKind, ev: EventKind)
  {
    match k
    case LevelStart => ev == OnLevelStart
    case Deploy => ev == OnDeploy
    case FirstDeploy => ev == OnDeploy
  }

  /** The condition tests of `shouldTrigger`. A deploy counts as the first one of its tower
      type when the count, already incremented for it, is exactly 1. */
  predicate ConditionHolds(t: Trigger, ev: EventKind, ctx: Context, counts: map<string, nat>)
  {
    t.condition.None? ||
    (var c := t.condition.value;
     match ev
     case OnLevelStart => !(Given(c.levelId) && c.levelId.value != ctx.levelId)
     case OnDeploy =>
       !(Given(c.towerType) && c.towerType.value != ctx.towerType)
       && (var first := Count(counts, ctx.towerType) == 1;
           !(t.kind == FirstDeploy && !first)
           && !(t.kind == Deploy && c.isFirstTime == Some(false) && first)))
  }

  /** `shouldTrigger` with the random draw `draw` as a parameter. */
  predicate ShouldTrigger(t: Trigger, ev: EventKind, ctx: Context, triggered: set<string>,
                          counts: map<string, nat>, draw: real)
  {
    KindMatches(t.kind, ev)
    && !(t.onceOnly && t.id in triggered)
    && ConditionHolds(t, ev, ctx, counts)
    && draw < t.probability
  }

  /** What passing `shouldTrigger` means, rule by rule. */
  lemma ShouldTriggerRules(t: Trigger, ev: EventKind, ctx: Context, triggered: set<string>,
                           counts: map<string, nat>, draw: real)
    requires ShouldTrigger(t, ev, ctx, triggered, counts, draw)
    ensures t.kind == LevelStart <==> ev == OnLevelStart
    ensures t.onceOnly ==> t.id !in triggered
    ensures draw < t.probability
    ensures ev == OnLevelStart && t.condition.Some? && Given(t.condition.value.levelId) ==>
      t.condition.value.levelId.value == ctx.levelId
    ensures ev == OnDeploy && t.condition.Some? && Given(t.condition.value.towerType) ==>
      t.condition.value.towerType.value == ctx.towerType
    ensures ev == OnDeploy && t.condition.Some? && t.kind == FirstDeploy ==>
      Count(counts, ctx.towerType) == 1
    ensures ev == OnDeploy && t.condition.Some? && t.kind == Deploy && t.condition.value.isFirstTime == Some(false) ==>
      Count(counts, ctx.towerType) != 1
  {
  }

  /** A trigger with probability 1.0 passes its gate on every draw in [0, 1): whether it fires
      does not depend on the draw. */
  lemma CertainTriggerIgnoresDraw(t: Trigger, ev: EventKind, ctx: Context, triggered: set<string>,
                                  counts: map<string, nat>, draw: real)
    requires t.probability == 1.0 && 0.0 <= draw < 1.0
    ensures ShouldTrigger(t, ev, ctx, triggered, counts, draw) <==> ShouldTrigger(t, ev, ctx, triggered, counts, 0.0)
  {
  }

  /** The loop of `checkTrigger`: the index of the first trigger from `from` on that passes,
      with `gates[i]` the draw for trigger `i`. */
  function FirstPassing(cfg: seq<Trigger>, ev: EventKind, ctx: Context, triggered: set<string>,
                        counts: map<string, nat>, gates: seq<real>, from: nat): (r: Option<nat>)
    requires |gates| == |cfg| && from <= |cfg|
    ensures r.Some? ==> from <= r.value < |cfg|
                        && ShouldTrigger(cfg[r.value], ev, ctx, triggered, counts, gates[r.value])
    ensures r.Some? ==> forall j :: from <= j < r.value ==> !ShouldTrigger(cfg[j], ev, ctx, triggered, counts, gates[j])
    ensures r.None? <==> forall j :: from <= j < |cfg| ==> !ShouldTrigger(cfg[j], ev, ctx, triggered, counts, gates[j])
    decreases |cfg| - from
  {
    if from == |cfg| then None
    else if ShouldTrigger(cfg[from], ev, ctx, triggered, counts, gates[from]) then Some(from)
    else FirstPassing(cfg, ev, ctx, triggered, counts, gates, from + 1)
  }

  /** `Math.floor(draw * n)`: a message index, always in range. */
  function Pick(draw: real, n: nat): (r: nat)
    requires 0.0 <= draw < 1.0 && n > 0
    ensures r < n
    ensures r as real <= draw * n as real < r as real + 1.0
  {
    var x := draw * n as real;
    DrawScalesBelow(draw, n as real);
    FloorBelow(x, n);
    x.Floor
  }

  /** The floor of a point of [0, m) is an index below m. */
  lemma FloorBelow(x: real, m: nat)
    requires 0.0 <= x < m as real
    ensures 0 <= x.Floor < m
    ensures x.Floor as real <= x < x.Floor as real + 1.0
  {
  }

  /** A draw in [0, 1) scales a positive count to a point in [0, count). */
  lemma DrawScalesBelow(draw: real, m: real)
    requires 0.0 <= draw < 1.0 && m > 0.0
    ensures 0.0 <= draw * m < m
  {
    assert m - draw * m == (1.0 - draw) * m;
    assert (1.0 - draw) * m > 0.0;
  }

  lemma ConfigHasMessages()
    ensures forall i :: 0 <= i < |Config| ==> |Config[i].messages| > 0
  {
  }

  /** A once-only trigger, once fired, is never chosen again while it stays recorded, whatever
      the event, the counts or the draws. */
  lemma OnceOnlyFiresOnce(cfg: seq<Trigger>, i: nat, ev: EventKind, ctx: Context, triggered: set<string>,
                          counts: map<string, nat>, gates: seq<real>)
    requires |gates| == |cfg| && i < |cfg| && cfg[i].onceOnly
    ensures FirstPassing(cfg, ev, ctx, triggered + {cfg[i].id}, counts, gates, 0) != Some(i)
  {
  }

  /** With the shipped configuration, the first deployment of a neutrophil says the neutrophil
      introduction on every draw. */
  lemma FirstNeutrophilIsIntroduced(levelId: string, triggered: set<string>, counts: map<string, nat>, gates: seq<real>)
    requires |gates| == |Config| && forall i :: 0 <= i < |gates| ==> 0.0 <= gates[i] < 1.0
    requires "firstDeploy_neutrophil" !in triggered
    requires Count(counts, "neutrophil") == 1
    ensures FirstPassing(Config, OnDeploy, Context(levelId, "neutrophil"), triggered, counts, gates, 0) == Some(1)
  {
    var ctx := Context(levelId, "neutrophil");
    assert !ShouldTrigger(Config[0], OnDeploy, ctx, triggered, counts, gates[0]);
    assert ShouldTrigger(Config[1], OnDeploy, ctx, triggered, counts, gates[1]);
  }

  /** With the shipped configuration, a later neutrophil deployment says a tip only when its
      draw falls under 0.1, and otherwise nothing. */
  lemma LaterNeutrophilTip(levelId: string, triggered: set<string>, counts: map<string, nat>, gates: seq<real>)
    requires |gates| == |Config| && forall i :: 0 <= i < |gates| ==> 0.0 <= gates[i] < 1.0
    requires Count(counts, "neutrophil") > 1
    ensures var r := FirstPassing(Config, OnDeploy, Context(levelId, "neutrophil"), triggered, counts, gates, 0);
      (gates[3] < 0.1 ==> r == Some(3)) && (0.1 <= gates[3] ==> r == None)
  {
    var ctx := Context(levelId, "neutrophil");
    assert !ShouldTrigger(Config[0], OnDeploy, ctx, triggered, counts, gates[0]);
    assert !ShouldTrigger(Config[1], OnDeploy, ctx, triggered, counts, gates[1]);
    assert !ShouldTrigger(Config[2], OnDeploy, ctx, triggered, counts, gates[2]);
    assert !ShouldTrigger(Config[4], OnDeploy, ctx, triggered, counts, gates[4]);
  }

  /** Starting level 1 shows the welcome until it has been recorded; starting another level
      shows nothing. */
  lemma WelcomeOnLevelOne(ctx: Context, triggered: set<string>, counts: map<string, nat>, gates: seq<real>)
    requires |gates| == |Config| && forall i :: 0 <= i < |gates| ==> 0.0 <= gates[i] < 1.0
    ensures var r := FirstPassing(Config, OnLevelStart, ctx, triggered, counts, gates, 0);
      r == (if ctx.levelId == "level_1" && "levelStart_demo" !in triggered then Some(0) else None)
  {
    assert forall j :: 1 <= j < |Config| ==> !ShouldTrigger(Config[j], OnLevelStart, ctx, triggered, counts, gates[j]);
  }

  /** The dialogue manager: the ids of the triggers that have fired, and the number of
      deployments per tower type. */
  class DialogueManager {
    var triggered: set<string>
    var deploymentCount: map<string, nat>

    constructor()
      ensures triggered == {} && deploymentCount == map[]
    {
      triggered := {};
      deploymentCount := map[];
    }

    /** `reset`: forgets every fired trigger and every deployment. */
    method Reset()
      modifies this
      ensures triggered == {} && deploymentCount == map[]
    {
      triggered := {};
      deploymentCount := map[];
    }

    /** `recordDeployment`: one more deployment of `towerType`. */
    method RecordDeployment(towerType: string)
      modifies this`deploymentCount
      ensures deploymentCount == old(deploymentCount)[towerType := Count(old(deploymentCount), towerType) + 1]
    {
      var count := Count(deploymentCount, towerType);
      deploymentCount := deploymentCount[towerType := count + 1];
    }

    /** `getDeploymentCount`: 0 for a type never deployed since the last reset. */
    method GetDeploymentCount(towerType: string) returns (n: nat)
      ensures towerType !in deploymentCount ==> n == 0
      ensures towerType in deploymentCount ==> n == deploymentCount[towerType]
    {
      n := Count(deploymentCount, towerType);
    }

    /** `triggerDialogue`: records the trigger as fired and says the message the draw picks. */
    method TriggerDialogue(t: Trigger, pick: real) returns (message: string)
      requires |t.messages| > 0 && 0.0 <= pick < 1.0
      modifies this`triggered
      ensures triggered == old(triggered) + {t.id}
      ensures message == t.messages[Pick(pick, |t.messages|)]
    {
      triggered := triggered + {t.id};
      message := t.messages[Pick(pick, |t.messages|)];
    }

    /** `checkTrigger`: the message of the first configured trigger that passes, recording it
        as fired, or nothing (and no change) when none passes. */
    method CheckTrigger(ev: EventKind, ctx: Context, gates: seq<real>, pick: real) returns (message: Option<string>)
      requires |gates| == |Config| && 0.0 <= pick < 1.0
      modifies this`triggered
      ensures match FirstPassing(Config, ev, ctx, old(triggered), deploymentCount, gates, 0)
        case None => message == None && triggered == old(triggered)
        case Some(i) =>
          message == Some(Config[i].messages[Pick(pick, |Config[i].messages|)])
          && triggered == old(triggered) + {Config[i].id}
    {
      ConfigHasMessages();
      var i := 0;
      while i < |Config|
        invariant 0 <= i <= |Config| && triggered == old(triggered)
        invariant FirstPassing(Config, ev, ctx, triggered, deploymentCount, gates, 0)
               == FirstPassing(Config, ev, ctx, triggered, deploymentCount, gates, i)
      {
        if ShouldTrigger(Config[i], ev, ctx, triggered, deploymentCount, gates[i]) {
          var m := TriggerDialogue(Config[i], pick);
          return Some(m);
        }
        i := i + 1;
      }
      return None;
    }
  }

  /** Deployment counting: a recorded deployment raises its own type's count by exactly one
      and leaves every other type's count alone. */
  lemma RecordDeploymentCounts(counts: map<string, nat>, towerType: string, other: string)
    ensures Count(counts[towerType := Count(counts, towerType) + 1], towerType) == Count(counts, towerType) + 1
    ensures other != towerType ==> Count(counts[towerType := Count(counts, towerType) + 1], other) == Count(counts, other)
  {
  }
}
