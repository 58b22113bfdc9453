/** Actions of a verdict, ranked by impact. */
module Actions {
  import opened Wrappers
  import opened Sorting

  datatype Impact = High | Hygiene | Medium | Verify | Info

  function Order(i: Impact): int {
    match i case High => 0 case Hygiene => 1 case Medium => 2 case Verify => 3 case Info => 4
  }

  datatype Severity = Critical | Warn | Fine | Unknown

  // The stages of a backup pipeline, and names outside it.
  datatype Stage = Source | Proxy | Network | Target | Other(name: string) | NoStage

  // What is advised: of a job, and of the environment.
  datatype Code =
    | ActWindow | ActBalanced | ActDeep | ActSrcStorage | ActHotadd | ActSkew | ActSerial
    | ActSlotsUnknown | ActScaleHost | ActSlots | ActAtCapacity | ActFeedNet | ActNetUpgrade
    | ActIperf | ActFeedTarget | ActNoBuyStorage | ActFasterTarget | ActFio | ActCompression
    | ActRepoFree
    | ActEnvFailing | ActEnvHostDown | ActEnvHostDownBare | ActEnvPastFailures | ActEnvSizing
    | ActEnvSpace | ActEnvStale | ActEnvWaits

  datatype Action = Action(rank: int, impact: Impact, code: Code, stage: Stage, gain: Option<int>)

  /** Advice about one stage, with the gain it frees where one is attributed; not yet ranked. */
  function Advice(impact: Impact, stage: Stage, code: Code, gain: Option<int>): Action {
    Action(0, impact, code, stage, gain)
  }

  /** A finding of the environment: no stage, no gain. */
  function Finding(impact: Impact, code: Code): Action {
    Advice(impact, NoStage, code, None)
  }

  function ByImpact(a: Action): Key {
    (Order(a.impact), 0)
  }

  function Numbered(acts: seq<Action>): (r: seq<Action>)
    ensures |r| == |acts| && forall i :: 0 <= i < |r| ==> r[i] == acts[i].(rank := i + 1)
  {
    seq(|acts|, i requires 0 <= i < |acts| => acts[i].(rank := i + 1))
  }

  function Ranked(acts: seq<Action>): seq<Action> {
    Numbered(StableSort(acts, ByImpact))
  }

  /** An action without its number. */
  function Bare(a: Action): Action {
    a.(rank := 0)
  }

  function Bares(acts: seq<Action>): (r: seq<Action>)
    ensures |r| == |acts| && forall i :: 0 <= i < |r| ==> r[i] == Bare(acts[i])
  {
    seq(|acts|, i requires 0 <= i < |acts| => Bare(acts[i]))
  }

  method Rank(acts: seq<Action>) returns (r: seq<Action>)
    ensures r == Ranked(acts)
  {
    r := StableSort(acts, ByImpact);
    ghost var sorted := r;
    for i := 0 to |r|
      invariant |r| == |sorted|
      invariant forall k :: 0 <= k < |r| ==> r[k] == if k < i then sorted[k].(rank := k + 1) else sorted[k]
    {
      r := r[i := r[i].(rank := i + 1)];
    }
  }

  lemma {:induction false} ClassOfBares(acts: seq<Action>, k: Key)
    ensures Class(Bares(acts), ByImpact, k) == Bares(Class(acts, ByImpact, k))
  {
    if acts != [] {
      ClassOfBares(acts[1..], k);
      assert Bares(acts)[1..] == Bares(acts[1..]);
    }
  }

  /** Ranking only reorders: by impact, equal impacts in the order they had, numbered from 1. */
  lemma RankingIsAStablePermutation(acts: seq<Action>)
    ensures StableSortOf(Bares(Ranked(acts)), Bares(acts), ByImpact)
    ensures multiset(Bares(Ranked(acts))) == multiset(Bares(acts))
    ensures forall i :: 0 <= i < |Ranked(acts)| ==> Ranked(acts)[i].rank == i + 1
    ensures |Ranked(acts)| == |acts|
  {
    var s := StableSort(acts, ByImpact);
    assert Bares(Ranked(acts)) == Bares(s);
    forall k ensures Class(Bares(s), ByImpact, k) == Class(Bares(acts), ByImpact, k) {
      ClassOfBares(s, k);
      ClassOfBares(acts, k);
    }
    forall i, j | 0 <= i < j < |s| ensures !Before(ByImpact(Bares(s)[j]), ByImpact(Bares(s)[i])) {
      assert !Before(ByImpact(s[j]), ByImpact(s[i]));
    }
    StableSortPermutes(Bares(s), Bares(acts), ByImpact);
  }

  /** The first action of high impact comes out on top. */
  lemma FirstHighIsOnTop(acts: seq<Action>, i: nat)
    requires i < |acts| && acts[i].impact == High
    requires forall j :: 0 <= j < i ==> acts[j].impact != High
    ensures |Ranked(acts)| > 0 && Ranked(acts)[0] == acts[i].(rank := 1)
  {
    LeastComesFirst(StableSort(acts, ByImpact), acts, ByImpact, i);
  }

  /** Adding findings before or after a ranked list keeps its actions and their order within an impact. */
  lemma AddingKeeps(front: seq<Action>, old_: seq<Action>, back: seq<Action>, k: Key)
    ensures Class(Bares(Ranked(front + old_ + back)), ByImpact, k)
         == Class(Bares(front), ByImpact, k) + Class(Bares(old_), ByImpact, k) + Class(Bares(back), ByImpact, k)
    ensures multiset(Bares(Ranked(front + old_ + back))) ==
      multiset(Bares(front)) + multiset(Bares(old_)) + multiset(Bares(back))
  {
    RankingIsAStablePermutation(front + old_ + back);
    assert Bares(front + old_ + back) == Bares(front) + Bares(old_) + Bares(back);
    ClassConcat(Bares(front) + Bares(old_), Bares(back), ByImpact, k);
    ClassConcat(Bares(front), Bares(old_), ByImpact, k);
  }
}
