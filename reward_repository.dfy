/** The reward queries: the rewards a user can afford, cheapest first, and one reward
    with its redemption history. */
module RewardRepository {
  import opened Wrappers
  import opened Entities
  import Linq

  function RequiredPointsOf(r: Reward): int {
    r.requiredPoints
  }

  /** The filter of the query: the reward costs at most `userPoints`. */
  function AffordableWith(userPoints: int): Reward -> bool {
    (x: Reward) => x.requiredPoints <= userPoints
  }

  /** `GetAvailableRewardsForUserAsync(userPoints)`: every stored reward whose
      `RequiredPoints` does not exceed `userPoints`, as often as it is stored, ordered by
      `RequiredPoints`. `IsAvailable` and `StockQuantity` play no part. */
  function GetAvailableRewardsForUser(rewards: seq<Reward>, userPoints: int): (r: seq<Reward>)
    ensures forall x :: x in r ==> x.requiredPoints <= userPoints
    ensures forall x :: x in rewards && x.requiredPoints <= userPoints ==> x in r
    ensures forall x :: multiset(r)[x] == if x.requiredPoints <= userPoints then multiset(rewards)[x] else 0
    ensures forall i, j :: 0 <= i < j < |r| ==> r[i].requiredPoints <= r[j].requiredPoints
  {
    var eligible := Linq.Where(rewards, AffordableWith(userPoints));
    AffordableRows(rewards, userPoints);
    var sorted := Linq.OrderBy(eligible, RequiredPointsOf);
    CheapestFirst(eligible);
    sorted
  }

  /** The filter of the query in plain terms. */
  lemma AffordableRows(rewards: seq<Reward>, userPoints: int)
    ensures var e := Linq.Where(rewards, AffordableWith(userPoints));
      && (forall x :: x in e <==> x in rewards && x.requiredPoints <= userPoints)
      && (forall x :: multiset(e)[x] == if x.requiredPoints <= userPoints then multiset(rewards)[x] else 0)
  {
    var e := Linq.Where(rewards, AffordableWith(userPoints));
    forall x ensures AffordableWith(userPoints)(x) == (x.requiredPoints <= userPoints) {
    }
  }

  /** The ordering of the query in plain terms: the same rows, cheapest first. */
  lemma CheapestFirst(e: seq<Reward>)
    ensures var r := Linq.OrderBy(e, RequiredPointsOf);
      && multiset(r) == multiset(e)
      && (forall x :: x in r <==> x in e)
      && (forall i, j :: 0 <= i < j < |r| ==> r[i].requiredPoints <= r[j].requiredPoints)
  {
    var r := Linq.OrderBy(e, RequiredPointsOf);
    forall x ensures x in r <==> x in e {
      assert x in r <==> x in multiset(r);
      assert x in e <==> x in multiset(e);
    }
    forall i, j | 0 <= i < j < |r| ensures r[i].requiredPoints <= r[j].requiredPoints {
      assert RequiredPointsOf(r[i]) <= RequiredPointsOf(r[j]);
    }
  }

  /** More points never hide a reward: the result for `p` is contained, with
      multiplicities, in the result for any `q >= p`. */
  lemma {:induction false} AvailableMonotone(rewards: seq<Reward>, p: int, q: int)
    requires p <= q
    ensures multiset(GetAvailableRewardsForUser(rewards, p)) <= multiset(GetAvailableRewardsForUser(rewards, q))
    ensures |GetAvailableRewardsForUser(rewards, p)| <= |GetAvailableRewardsForUser(rewards, q)|
  {
    Linq.WhereWeakening(rewards, AffordableWith(p), AffordableWith(q));
    var a, b := GetAvailableRewardsForUser(rewards, p), GetAvailableRewardsForUser(rewards, q);
    assert multiset(a) == multiset(Linq.Where(rewards, AffordableWith(p)));
    assert multiset(b) == multiset(Linq.Where(rewards, AffordableWith(q)));
    assert |a| == |multiset(a)| && |b| == |multiset(b)|;
  }

  /** An affordable reward is listed even when it is out of stock and marked unavailable. */
  lemma OutOfStockStillListed(rewards: seq<Reward>, userPoints: int, x: Reward)
    requires x in rewards && x.requiredPoints <= userPoints
    requires x.stockQuantity == 0 && !x.isAvailable
    ensures x in GetAvailableRewardsForUser(rewards, userPoints)
  {
  }

  /** A reward with its `HistoryReward` rows loaded. */
  datatype RewardWithHistory = RewardWithHistory(reward: Reward, history: seq<HistoryReward>)

  /** `GetRewardWithHistoryAsync(rewardId)`: the reward with that `ID` and the history
      rows that refer to it, or `None` when there is no such reward. */
  function GetRewardWithHistory(rewards: seq<Reward>, history: seq<HistoryReward>, rewardId: int): (r: Option<RewardWithHistory>)
    ensures r.Some? <==> exists x :: x in rewards && x.id == rewardId
    ensures r.Some? ==> r.value.reward in rewards && r.value.reward.id == rewardId
    ensures r.Some? ==> forall h :: h in r.value.history <==> h in history && h.rewardId == rewardId
  {
    match Linq.FirstOrDefault(rewards, (x: Reward) => x.id == rewardId)
    case None => None
    case Some(x) => Some(RewardWithHistory(x, Linq.Where(history, (h: HistoryReward) => h.rewardId == rewardId)))
  }
}
