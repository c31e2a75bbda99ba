/**
 * Level progression of the level-selection screen (src/game/config/LevelSelectionConfig.ts):
 * the manager's list of levels with their unlocked / completed / best-score progress,
 * completing a level, resetting progress, and the progress records it saves to and loads
 * from the browser's storage.
 */
module Levels {
  import opened Wrappers

  /** One level card: its key, the name shown on it, and the three progress fields. */
  datatype Level = Level(id: string, name: string, unlocked: bool, completed: bool, bestScore: Option<int>)

  /** What `saveProgress` writes for one level, and what `loadProgress` reads back. */
  datatype Record = Record(id: string, unlocked: bool, completed: bool, bestScore: Option<int>)

  function Max(a: int, b: int): int { if a < b then b else a }

  /** `bestScore || 0`: a missing best score counts as 0. */
  function OrZero(s: Option<int>): int { if s.Some? then s.value else 0 }

  /** `findIndex` by id: the index of the first level carrying `id`, if any. */
  function FindIndex(ls: seq<Level>, id: string): (r: Option<nat>)
    ensures r.Some? ==> r.value < |ls| && ls[r.value].id == id
    ensures r.Some? ==> forall j :: 0 <= j < r.value ==> ls[j].id != id
    ensures r.None? <==> forall j :: 0 <= j < |ls| ==> ls[j].id != id
  {
    if |ls| == 0 then None
    else if ls[0].id == id then Some(0)
    else match FindIndex(ls[1..], id)
      case None => None
      case Some(k) => Some(k + 1)
  }

  /** `getLevel`: the first level with the given id, or nothing when no level has it. */
  function Find(ls: seq<Level>, id: string): (r: Option<Level>)
    ensures r.None? <==> forall j :: 0 <= j < |ls| ==> ls[j].id != id
    ensures r.Some? ==> exists i :: 0 <= i < |ls| && ls[i] == r.value
                                   && (forall j :: 0 <= j < i ==> ls[j].id != id)
    ensures r.Some? ==> r.value.id == id
  {
    match FindIndex(ls, id)
    case None => None
    case Some(k) => Some(ls[k])
  }

  /** `getUnlockedLevels`: the unlocked levels, in list order. */
  function Unlocked(ls: seq<Level>): (r: seq<Level>)
    ensures |r| <= |ls|
    ensures forall l :: l in r <==> l in ls && l.unlocked
  {
    if |ls| == 0 then []
    else (if ls[0].unlocked then [ls[0]] else []) + Unlocked(ls[1..])
  }

  /** The filter keeps the list order: the unlocked levels of a concatenation are those of
      the first part followed by those of the second. */
  lemma {:induction false} UnlockedKeepsOrder(a: seq<Level>, b: seq<Level>)
    ensures Unlocked(a + b) == Unlocked(a) + Unlocked(b)
    decreases |a|
  {
    if |a| == 0 {
      assert a + b == b;
    } else {
      assert (a + b)[1..] == a[1..] + b;
      UnlockedKeepsOrder(a[1..], b);
    }
  }

  /** The ids and names of a list, which no progress operation touches. */
  predicate SameCards(ls: seq<Level>, r: seq<Level>)
  {
    |r| == |ls| && forall i :: 0 <= i < |ls| ==> r[i].id == ls[i].id && r[i].name == ls[i].name
  }

  /** The guard of `completeLevel`: the id is known and its first level is not completed. */
  predicate Completes(ls: seq<Level>, id: string)
  {
    FindIndex(ls, id).Some? && !ls[FindIndex(ls, id).value].completed
  }

  /** `completeLevel` on the list: the first level with `id` becomes completed with its best
      score raised to `score`, and the level after it (if any) becomes unlocked. */
  function Complete(ls: seq<Level>, id: string, score: int): (r: seq<Level>)
    ensures SameCards(ls, r)
    ensures !Completes(ls, id) ==> r == ls
    ensures Completes(ls, id) ==>
      (var k := FindIndex(ls, id).value;
       r[k].completed && r[k].unlocked == ls[k].unlocked
       && r[k].bestScore == Some(Max(OrZero(ls[k].bestScore), score))
       && (k + 1 < |ls| ==> r[k + 1] == ls[k + 1].(unlocked := true))
       && forall j :: 0 <= j < |ls| && j != k && j != k + 1 ==> r[j] == ls[j])
  {
    if !Completes(ls, id) then ls
    else
      var k := FindIndex(ls, id).value;
      var done := ls[k := ls[k].(completed := true, bestScore := Some(Max(OrZero(ls[k].bestScore), score)))];
      if k < |ls| - 1 then done[k + 1 := done[k + 1].(unlocked := true)] else done
  }

  /** Looking an id up gives the same index in any list with the same ids. */
  lemma FindIndexSameCards(ls: seq<Level>, r: seq<Level>, id: string)
    requires SameCards(ls, r)
    ensures FindIndex(r, id) == FindIndex(ls, id)
  {
    var a, b := FindIndex(ls, id), FindIndex(r, id);
    if a.Some? && b.Some? {
      assert !(a.value < b.value) && !(b.value < a.value);
    }
  }

  /** Progress only grows under `completeLevel`: nothing is locked again or uncompleted, and
      no best score falls. */
  lemma CompleteKeepsProgress(ls: seq<Level>, id: string, score: int)
    ensures var r := Complete(ls, id, score);
      forall i :: 0 <= i < |ls| ==>
        (ls[i].unlocked ==> r[i].unlocked) && (ls[i].completed ==> r[i].completed)
        && OrZero(ls[i].bestScore) <= OrZero(r[i].bestScore)
  {
  }

  /** Completing a level a second time changes nothing, whatever the new score: the
      already-completed guard keeps the first best score. */
  lemma CompleteTwice(ls: seq<Level>, id: string, s1: int, s2: int)
    ensures Complete(Complete(ls, id, s1), id, s2) == Complete(ls, id, s1)
  {
    var r := Complete(ls, id, s1);
    FindIndexSameCards(ls, r, id);
  }

  /** `resetProgress` on the list: only the first level unlocked, nothing completed, no best
      score. */
  function ResetAll(ls: seq<Level>): (r: seq<Level>)
    ensures SameCards(ls, r)
    ensures forall i :: 0 <= i < |r| ==> (r[i].unlocked <==> i == 0)
    ensures forall i :: 0 <= i < |r| ==> !r[i].completed && r[i].bestScore == None
  {
    seq(|ls|, i requires 0 <= i < |ls| => ls[i].(unlocked := i == 0, completed := false, bestScore := None))
  }

  lemma {:induction false} NoneUnlocked(ls: seq<Level>)
    requires forall i :: 0 <= i < |ls| ==> !ls[i].unlocked
    ensures Unlocked(ls) == []
    decreases |ls|
  {
    if |ls| > 0 {
      NoneUnlocked(ls[1..]);
    }
  }

  /** After a reset exactly the first level is offered. */
  lemma UnlockedAfterReset(ls: seq<Level>)
    requires |ls| > 0
    ensures Unlocked(ResetAll(ls)) == [ResetAll(ls)[0]]
  {
    var r := ResetAll(ls);
    assert r == [r[0]] + r[1..];
    UnlockedKeepsOrder([r[0]], r[1..]);
    NoneUnlocked(r[1..]);
  }

  /** The record `saveProgress` writes for one level. */
  function RecordOf(l: Level): Record
  {
    Record(l.id, l.unlocked, l.completed, l.bestScore)
  }

  /** `saveProgress`: one record per level, in list order. */
  function Records(ls: seq<Level>): (r: seq<Record>)
    ensures |r| == |ls| && forall i :: 0 <= i < |ls| ==> r[i] == RecordOf(ls[i])
  {
    seq(|ls|, i requires 0 <= i < |ls| => RecordOf(ls[i]))
  }

  /** One step of `loadProgress`: the record's fields overwrite the first level with its id;
      a record whose id no level has is skipped. */
  function Apply(ls: seq<Level>, rec: Record): (r: seq<Level>)
    ensures SameCards(ls, r)
    ensures FindIndex(ls, rec.id).None? ==> r == ls
    ensures FindIndex(ls, rec.id).Some? ==>
      var k := FindIndex(ls, rec.id).value;
      && RecordOf(r[k]) == rec
      && (forall j :: 0 <= j < |ls| && j != k ==> r[j] == ls[j])
  {
    match FindIndex(ls, rec.id)
    case None => ls
    case Some(k) => ls[k := ls[k].(unlocked := rec.unlocked, completed := rec.completed, bestScore := rec.bestScore)]
  }

  /** `loadProgress`: the records applied in stored order. */
  function Restore(ls: seq<Level>, recs: seq<Record>): (r: seq<Level>)
    ensures SameCards(ls, r)
    decreases |recs|
  {
    if |recs| == 0 then ls
    else Apply(Restore(ls, recs[..|recs| - 1]), recs[|recs| - 1])
  }

  predicate DistinctIds(ls: seq<Level>)
  {
    forall i, j :: 0 <= i < j < |ls| ==> ls[i].id != ls[j].id
  }

  /** The first `n` levels of `base` carrying the progress of `ls`, the rest as in `base`. */
  function CopiedProgress(base: seq<Level>, ls: seq<Level>, n: nat): seq<Level>
    requires |base| == |ls|
  {
    seq(|base|, i requires 0 <= i < |base| =>
      if i < n then base[i].(unlocked := ls[i].unlocked, completed := ls[i].completed, bestScore := ls[i].bestScore)
      else base[i])
  }

  /** One step of the load loop: the n-th record lands on the n-th level. */
  lemma ApplyNext(base: seq<Level>, ls: seq<Level>, n: nat)
    requires |base| == |ls| && 0 < n <= |ls|
    requires forall i :: 0 <= i < |ls| ==> base[i].id == ls[i].id
    requires DistinctIds(ls)
    ensures Apply(CopiedProgress(base, ls, n - 1), RecordOf(ls[n - 1])) == CopiedProgress(base, ls, n)
  {
    var prev := CopiedProgress(base, ls, n - 1);
    assert prev[n - 1].id == ls[n - 1].id;
    assert FindIndex(prev, ls[n - 1].id) == Some(n - 1);
    var r := Apply(prev, RecordOf(ls[n - 1]));
    var want := CopiedProgress(base, ls, n);
    forall i | 0 <= i < |base|
      ensures r[i] == want[i]
    {
      if i != n - 1 {
        assert r[i] == prev[i];
      }
    }
  }

  lemma {:induction false} RestorePrefix(base: seq<Level>, ls: seq<Level>, n: nat)
    requires |base| == |ls| && n <= |ls|
    requires forall i :: 0 <= i < |ls| ==> base[i].id == ls[i].id
    requires DistinctIds(ls)
    ensures Restore(base, Records(ls)[..n]) == CopiedProgress(base, ls, n)
  {
    var recs := Records(ls);
    if n == 0 {
      assert CopiedProgress(base, ls, 0) == base;
    } else {
      RestorePrefix(base, ls, n - 1);
      assert recs[..n][..n - 1] == recs[..n - 1];
      ApplyNext(base, ls, n);
    }
  }

  /** Saving and loading round-trips: loading the records saved from `ls` onto a fresh copy of
      the same cards restores exactly the unlocked, completed and best-score fields of `ls`, so
      a manager rebuilt from the same defaults comes back as it was saved. */
  lemma LoadAfterSave(base: seq<Level>, ls: seq<Level>)
    requires |base| == |ls|
    requires forall i :: 0 <= i < |ls| ==> base[i].id == ls[i].id
    requires DistinctIds(ls)
    ensures var r := Restore(base, Records(ls));
      |r| == |ls|
      && (forall i :: 0 <= i < |ls| ==>
            r[i] == base[i].(unlocked := ls[i].unlocked, completed := ls[i].completed, bestScore := ls[i].bestScore))
    ensures SameCards(base, ls) ==> Restore(base, Records(ls)) == ls
  {
    RestorePrefix(base, ls, |ls|);
    assert Records(ls)[..|ls|] == Records(ls);
  }

  /** The level-selection manager. `defaults` is its private copy of the shipped list, which
      it never writes; `stored` stands for the browser storage slot of its saved progress. */
  class LevelSelectionManager {
    const defaults: seq<Level>
    var levels: seq<Level>
    var stored: Option<seq<Record>>

    /** The manager starts from the shipped list and applies any saved progress. */
    constructor(shipped: seq<Level>, saved: Option<seq<Record>>)
      ensures defaults == shipped && stored == saved
      ensures levels == (if saved.Some? then Restore(shipped, saved.value) else shipped)
    {
      defaults := shipped;
      levels := shipped;
      stored := saved;
      new;
      LoadProgress();
    }

    /** `loadProgress`: each saved record in turn overwrites the first level with its id. */
    method LoadProgress()
      modifies this`levels
      ensures levels == (if stored.Some? then Restore(old(levels), stored.value) else old(levels))
    {
      if stored.Some? {
        var recs := stored.value;
        var i := 0;
        while i < |recs|
          invariant 0 <= i <= |recs|
          invariant levels == Restore(old(levels), recs[..i])
        {
          assert recs[..i + 1][..i] == recs[..i];
          var k := FindIndex(levels, recs[i].id);
          if k.Some? {
            var l := levels[k.value];
            levels := levels[k.value := l.(unlocked := recs[i].unlocked, completed := recs[i].completed,
                                           bestScore := recs[i].bestScore)];
          }
          i := i + 1;
        }
        assert recs[..|recs|] == recs;
      }
    }

    /** `saveProgress`: the storage slot now holds one record per level. */
    method SaveProgress()
      modifies this`stored
      ensures stored == Some(Records(levels))
    {
      stored := Some(Records(levels));
    }

    /** `completeLevel`: completes the first level with `id` and unlocks the next, then saves;
        an unknown or already-completed id changes nothing and saves nothing. */
    method CompleteLevel(id: string, score: int)
      modifies this`levels, this`stored
      ensures levels == Complete(old(levels), id, score)
      ensures stored == (if Completes(old(levels), id) then Some(Records(levels)) else old(stored))
    {
      var k := FindIndex(levels, id);
      if k.Some? && !levels[k.value].completed {
        var l := levels[k.value];
        levels := levels[k.value := l.(completed := true, bestScore := Some(Max(OrZero(l.bestScore), score)))];
        if k.value < |levels| - 1 {
          levels := levels[k.value + 1 := levels[k.value + 1].(unlocked := true)];
        }
        SaveProgress();
      }
    }

    /** `resetProgress`: every level in turn is relocked (the first one excepted), uncompleted
        and cleared of its best score, then the progress is saved. */
    method ResetProgress()
      modifies this`levels, this`stored
      ensures levels == ResetAll(old(levels))
      ensures stored == Some(Records(levels))
    {
      var i := 0;
      while i < |levels|
        invariant 0 <= i <= |levels| == |old(levels)|
        invariant forall j :: 0 <= j < i ==> levels[j] == ResetAll(old(levels))[j]
        invariant forall j :: i <= j < |levels| ==> levels[j] == old(levels)[j]
      {
        levels := levels[i := levels[i].(unlocked := i == 0, completed := false, bestScore := None)];
        i := i + 1;
      }
      SaveProgress();
    }
  }
}
