/**
 * Removal of dead sprites from the live list. The list is spliced while a
 * forward index walks it, so the sprite right after a removed one moves
 * into the slot just examined and is not looked at in that pass.
 */
module Prune {
  import opened Sprites
  import opened Seqs

  /** The objects whose flags decide which entities are dead. */
  function Refs(s: seq<Entity>): set<object> {
    set e | e in s :: e.Ref()
  }

  /** What one pass of the splicing loop leaves of `s`. */
  function SkipPrune(s: seq<Entity>): (r: seq<Entity>)
    reads Refs(s)
    ensures |r| <= |s|
    ensures forall e :: e in r ==> e in s
    decreases |s|
  {
    if s == [] then []
    else if s[0].Dead() then (if |s| == 1 then [] else [s[1]] + SkipPrune(s[2..]))
    else [s[0]] + SkipPrune(s[1..])
  }

  /** The live entities of `s`, in order: what an exact filter would keep. */
  function Survivors(s: seq<Entity>): seq<Entity>
    reads Refs(s)
    decreases |s|
  {
    if s == [] then [] else (if s[0].Dead() then [] else [s[0]]) + Survivors(s[1..])
  }

  /** `r` is `s` with some of its dead entities deleted and the rest in order. */
  predicate RemovesOnlyDead(s: seq<Entity>, r: seq<Entity>)
    reads Refs(s)
    decreases |s|
  {
    if s == [] then r == []
    else
      (r != [] && r[0] == s[0] && RemovesOnlyDead(s[1..], r[1..]))
      || (s[0].Dead() && RemovesOnlyDead(s[1..], r))
  }

  /** No dead entity directly follows another dead one. */
  predicate NoDeadPair(s: seq<Entity>)
    reads Refs(s)
  {
    forall k :: 0 < k < |s| && s[k - 1].Dead() ==> !s[k].Dead()
  }

  /** The prune loop of `updateSprites`, on the list it splices. */
  method SplicePrune(s: seq<Entity>) returns (r: seq<Entity>)
    ensures r == SkipPrune(s)
  {
    r := s;
    var i := 0;
    assert r[..0] + SkipPrune(r[0..]) == SkipPrune(s) by {
      assert r[..0] == [] && r[0..] == s;
    }
    while i < |r|
      invariant 0 <= i <= |r| + 1
      invariant Pass(r, i) == SkipPrune(s)
      decreases |r| + 1 - i
    {
      PassStep(r, i);
      if r[i].Dead() {
        r := r[..i] + r[i + 1..];
      }
      i := i + 1;
    }
    if i == |r| {
      assert r[..i] == r && r[i..] == [];
    }
  }

  /**
   * The loop's progress: the kept prefix `r[..i]` followed by what the rest
   * of the pass will keep; once the index has run past the end, `r` itself.
   */
  ghost function Pass(r: seq<Entity>, i: nat): seq<Entity>
    reads Refs(r)
  {
    if i <= |r| then r[..i] + SkipPrune(r[i..]) else r
  }

  /** One iteration of the loop leaves its progress unchanged. */
  lemma PassStep(r: seq<Entity>, i: nat)
    requires i < |r|
    ensures r[i].Dead() ==> Pass(r[..i] + r[i + 1..], i + 1) == Pass(r, i)
    ensures !r[i].Dead() ==> Pass(r, i + 1) == Pass(r, i)
  {
    assert r[i..][0] == r[i];
    assert r[i..][1..] == r[i + 1..];
    if r[i].Dead() {
      var spliced := r[..i] + r[i + 1..];
      if i + 1 < |r| {
        assert r[i..][1] == r[i + 1];
        assert r[i..][2..] == r[i + 2..];
        assert spliced[..i + 1] == r[..i] + [r[i + 1]];
        assert spliced[i + 1..] == r[i + 2..];
      } else {
        assert spliced == r[..i];
        assert r[..i] + SkipPrune(r[i..]) == r[..i];
      }
    } else {
      assert r[..i + 1] == r[..i] + [r[i]];
    }
  }

  /** The pass removes nothing but dead sprites and keeps the order of the rest. */
  lemma {:induction false} SkipPruneRemovesOnlyDead(s: seq<Entity>)
    ensures RemovesOnlyDead(s, SkipPrune(s))
    decreases |s|
  {
    if s != [] {
      if s[0].Dead() {
        if |s| == 1 {
          assert RemovesOnlyDead(s[1..], []);
        } else {
          SkipPruneRemovesOnlyDead(s[2..]);
          assert s[1..][1..] == s[2..];
          assert RemovesOnlyDead(s[1..], SkipPrune(s));
        }
      } else {
        SkipPruneRemovesOnlyDead(s[1..]);
      }
    }
  }

  /** When no two dead sprites are adjacent, the pass removes every dead one. */
  lemma {:induction false} SkipPruneFiltersWithoutDeadPairs(s: seq<Entity>)
    requires NoDeadPair(s)
    ensures SkipPrune(s) == Survivors(s)
    decreases |s|
  {
    if s != [] {
      if s[0].Dead() && |s| > 1 {
        assert !s[1].Dead();
        assert NoDeadPair(s[2..]);
        SkipPruneFiltersWithoutDeadPairs(s[2..]);
        assert s[1..][1..] == s[2..];
      } else if !s[0].Dead() {
        assert NoDeadPair(s[1..]);
        SkipPruneFiltersWithoutDeadPairs(s[1..]);
      }
    }
  }

  /** The exact filter keeps no dead sprite. */
  lemma {:induction false} SurvivorsAreLive(s: seq<Entity>, k: int)
    requires 0 <= k < |Survivors(s)|
    ensures !Survivors(s)[k].Dead()
    decreases |s|
  {
    var head := if s[0].Dead() then [] else [s[0]];
    if k >= |head| {
      SurvivorsAreLive(s[1..], k - |head|);
    }
  }

  /** Two adjacent dead sprites leave a dead sprite behind: the second is never examined. */
  lemma {:induction false} DeadPairLeavesDead(s: seq<Entity>, k: int)
    requires 0 < k < |s| && s[k - 1].Dead() && s[k].Dead()
    ensures exists j :: 0 <= j < |SkipPrune(s)| && SkipPrune(s)[j].Dead()
    decreases |s|
  {
    if s[0].Dead() {
      assert SkipPrune(s) == [s[1]] + SkipPrune(s[2..]);
      if !s[1].Dead() {
        assert k >= 3;
        DeadPairLeavesDead(s[2..], k - 2);
        var j :| 0 <= j < |SkipPrune(s[2..])| && SkipPrune(s[2..])[j].Dead();
        assert SkipPrune(s)[j + 1] == SkipPrune(s[2..])[j];
      } else {
        assert SkipPrune(s)[0].Dead();
      }
    } else {
      assert SkipPrune(s) == [s[0]] + SkipPrune(s[1..]);
      DeadPairLeavesDead(s[1..], k - 1);
      var j :| 0 <= j < |SkipPrune(s[1..])| && SkipPrune(s[1..])[j].Dead();
      assert SkipPrune(s)[j + 1] == SkipPrune(s[1..])[j];
    }
  }

  /** The pass is an exact filter exactly when no two dead sprites are adjacent. */
  lemma SkipPruneFiltersOnlyWithoutDeadPairs(s: seq<Entity>)
    ensures SkipPrune(s) == Survivors(s) <==> NoDeadPair(s)
  {
    if NoDeadPair(s) {
      SkipPruneFiltersWithoutDeadPairs(s);
    } else {
      var k :| 0 < k < |s| && s[k - 1].Dead() && s[k].Dead();
      DeadPairLeavesDead(s, k);
      var j :| 0 <= j < |SkipPrune(s)| && SkipPrune(s)[j].Dead();
      if SkipPrune(s) == Survivors(s) {
        SurvivorsAreLive(s, j);
      }
    }
  }

  /** A live sprite separates the pass into independent halves. */
  lemma {:induction false} SkipPruneSplitsAtLive(p: seq<Entity>, live: Entity, u: seq<Entity>)
    requires !live.Dead()
    ensures SkipPrune(p + [live] + u) == SkipPrune(p) + [live] + SkipPrune(u)
    decreases |p|, 1
  {
    if p == [] {
      SkipPruneKeepsLive(live, u);
      assert p + [live] + u == [live] + u;
    } else if !p[0].Dead() {
      SplitsAtLiveAfterLive(p, live, u);
    } else if |p| == 1 {
      SkipPruneKeepsLive(live, u);
      SkipPruneSkipsNext(p[0], live, u);
      assert p + [live] + u == [p[0], live] + u;
    } else {
      SplitsAtLiveAfterDead(p, live, u);
    }
  }

  lemma {:induction false} SplitsAtLiveAfterLive(p: seq<Entity>, live: Entity, u: seq<Entity>)
    requires !live.Dead() && p != [] && !p[0].Dead()
    ensures SkipPrune(p + [live] + u) == SkipPrune(p) + [live] + SkipPrune(u)
    decreases |p|, 0
  {
    var t := p[1..];
    SkipPruneSplitsAtLive(t, live, u);
    SkipPruneKeepsLive(p[0], t);
    SkipPruneKeepsLive(p[0], t + [live] + u);
    assert p == [p[0]] + t;
    AppendAssoc([p[0]], t, [live]);
    AppendAssoc([p[0]], t + [live], u);
  }

  lemma {:induction false} SplitsAtLiveAfterDead(p: seq<Entity>, live: Entity, u: seq<Entity>)
    requires !live.Dead() && |p| >= 2 && p[0].Dead()
    ensures SkipPrune(p + [live] + u) == SkipPrune(p) + [live] + SkipPrune(u)
    decreases |p|, 0
  {
    var t := p[2..];
    SkipPruneSplitsAtLive(t, live, u);
    SkipPruneSkipsNext(p[0], p[1], t);
    SkipPruneSkipsNext(p[0], p[1], t + [live] + u);
    assert p == [p[0], p[1]] + t;
    AppendAssoc([p[0], p[1]], t, [live]);
    AppendAssoc([p[0], p[1]], t + [live], u);
  }

  /** A live head is kept and the pass moves on to the next entity. */
  lemma SkipPruneKeepsLive(e: Entity, t: seq<Entity>)
    requires !e.Dead()
    ensures SkipPrune([e] + t) == [e] + SkipPrune(t)
  {
    assert ([e] + t)[1..] == t;
  }

  /** A dead head is removed and the entity after it is kept unexamined. */
  lemma SkipPruneSkipsNext(e: Entity, next: Entity, t: seq<Entity>)
    requires e.Dead()
    ensures SkipPrune([e, next] + t) == [next] + SkipPrune(t)
  {
    assert ([e, next] + t)[2..] == t;
  }

  /**
   * A dead sprite that is first, or comes right after a live one, is
   * examined and removed; the sprite after it is then kept without being
   * examined, dead or not, and the pass carries on behind it.
   */
  lemma SkipPruneAfterLive(p: seq<Entity>, dead: Entity, next: Entity, u: seq<Entity>)
    requires dead.Dead()
    requires p == [] || !p[|p| - 1].Dead()
    ensures SkipPrune(p + [dead, next] + u) == SkipPrune(p) + [next] + SkipPrune(u)
  {
    SkipPruneSkipsNext(dead, next, u);
    if p == [] {
      assert p + [dead, next] + u == [dead, next] + u;
    } else {
      var q := p[..|p| - 1];
      var live := p[|p| - 1];
      assert p == q + [live];
      SkipPruneSplitsAtLive(q, live, []);
      SkipPruneSplitsAtLive(q, live, [dead, next] + u);
      assert q + [live] + [] == p && SkipPrune([]) == [];
      AppendAssoc(q + [live], [dead, next], u);
    }
  }

  /** A dead sprite at the end, first or right after a live one, is removed. */
  lemma SkipPruneDropsLastDead(p: seq<Entity>, dead: Entity)
    requires dead.Dead()
    requires p == [] || !p[|p| - 1].Dead()
    ensures SkipPrune(p + [dead]) == SkipPrune(p)
  {
    assert SkipPrune([dead]) == [];
    if p != [] {
      var q := p[..|p| - 1];
      var live := p[|p| - 1];
      assert p == q + [live];
      SkipPruneSplitsAtLive(q, live, []);
      SkipPruneSplitsAtLive(q, live, [dead]);
      assert q + [live] + [] == p && SkipPrune([]) == [];
    }
  }
}
