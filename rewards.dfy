/** The badge tier table and `getRewardForStreak`. */
module Rewards {
  import opened Wrappers

  datatype Reward = Reward(title: string, description: string)

  /** The nine streak thresholds, ascending. */
  const Thresholds: seq<int> := [3, 7, 14, 21, 30, 60, 100, 180, 365]

  /** The badge of each threshold, in the same order. */
  const Tiers: seq<Reward> := [
    Reward("🚀 Getting Started", "3 day streak!"),
    Reward("🎊 Week Warrior", "7 day streak!"),
    Reward("🌱 Two Week Wonder", "14 day streak!"),
    Reward("⚡ Habit Former", "21 day streak!"),
    Reward("🎯 Monthly Champion", "30 day streak!"),
    Reward("🔥 Two Month Master", "60 day streak!"),
    Reward("💯 Century Club", "100 day streak!"),
    Reward("🌟 Half Year Hero", "180 day streak!"),
    Reward("🏆 Year Warrior", "365 day streak!")
  ]

  /** The index of the highest threshold at or below `streak`, searching the table from index `i` down. */
  function TopTierFrom(streak: int, i: nat): (t: int)
    requires i < |Thresholds|
    ensures -1 <= t <= i
    ensures t >= 0 ==> Thresholds[t] <= streak
    ensures forall j :: t < j <= i ==> streak < Thresholds[j]
  {
    if Thresholds[i] <= streak then i
    else if i == 0 then -1
    else TopTierFrom(streak, i - 1)
  }

  /** The tier a streak reaches: the largest threshold at or below it, or -1 below the first. */
  function TopTier(streak: int): (t: int)
    ensures -1 <= t < |Thresholds|
    ensures t == -1 <==> streak < 3
    ensures t >= 0 ==> Thresholds[t] <= streak && (t == |Thresholds| - 1 || streak < Thresholds[t + 1])
  {
    TopTierFrom(streak, |Thresholds| - 1)
  }

  /**
   * `getRewardForStreak(streak)`: the chain of `if (streak >= n)` tests from
   * 365 down; `null` below 3, otherwise the badge of the highest tier reached.
   */
  function RewardForStreak(streak: int): (r: Option<Reward>)
    ensures r.None? <==> streak < 3
    ensures r.Some? ==> r.value == Tiers[TopTier(streak)]
  {
    if streak >= 365 then Some(Tiers[8])
    else if streak >= 180 then Some(Tiers[7])
    else if streak >= 100 then Some(Tiers[6])
    else if streak >= 60 then Some(Tiers[5])
    else if streak >= 30 then Some(Tiers[4])
    else if streak >= 21 then Some(Tiers[3])
    else if streak >= 14 then Some(Tiers[2])
    else if streak >= 7 then Some(Tiers[1])
    else if streak >= 3 then Some(Tiers[0])
    else None
  }

  /** The nine badge titles are pairwise distinct. */
  lemma TierTitlesDistinct()
    ensures forall i, j :: 0 <= i < j < |Tiers| ==> Tiers[i].title != Tiers[j].title
  {
    forall i, j | 0 <= i < j < |Tiers| ensures Tiers[i].title != Tiers[j].title {
      assert Tiers[i].title[0] != Tiers[j].title[0];
    }
  }

  /** A longer streak never earns a lower tier. */
  lemma TopTierMonotone(s1: int, s2: int)
    requires s1 <= s2
    ensures TopTier(s1) <= TopTier(s2)
  {
  }

  /** Every title a streak can earn is one of the nine. */
  function Title(streak: int): (title: string)
    requires streak >= 3
    ensures title in TitleSet()
  {
    RewardForStreak(streak).value.title
  }

  /** The set of the nine badge titles. */
  function TitleSet(): (titles: set<string>)
    ensures |titles| == |Tiers|
  {
    TierTitlesDistinct();
    TitlesOfCard(Tiers);
    set i | 0 <= i < |Tiers| :: Tiers[i].title
  }

  lemma {:induction false} TitlesOfCard(rs: seq<Reward>)
    requires forall i, j :: 0 <= i < j < |rs| ==> rs[i].title != rs[j].title
    ensures |set i | 0 <= i < |rs| :: rs[i].title| == |rs|
  {
    if rs != [] {
      var front := rs[..|rs| - 1];
      TitlesOfCard(front);
      var s := set i | 0 <= i < |rs| :: rs[i].title;
      var s' := set i | 0 <= i < |front| :: front[i].title;
      assert s == s' + {rs[|rs| - 1].title};
      assert rs[|rs| - 1].title !in s';
    }
  }
}
