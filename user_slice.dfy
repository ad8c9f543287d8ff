/**
 * The client-side user store: the profile with its streak statistics, the
 * rewards earned so far and the settings, and the reducers that change them.
 * Reward ids and timestamps come from the clock and are passed in.
 */
module UserSlice {
  import opened Wrappers

  datatype Profile = Profile(
    name: string,
    email: string,
    joinedDate: string,
    totalStreak: int,
    longestStreak: int)

  /** The fields an `updateProfile` payload may carry. */
  datatype ProfilePatch = ProfilePatch(
    name: Option<string>,
    email: Option<string>,
    joinedDate: Option<string>,
    totalStreak: Option<int>,
    longestStreak: Option<int>)

  datatype Settings = Settings(theme: string, notifications: bool)

  /** The fields an `updateSettings` payload may carry. */
  datatype SettingsPatch = SettingsPatch(theme: Option<string>, notifications: Option<bool>)

  /** A reward as stored: the payload's fields plus an id and the time it was earned. */
  datatype StoredReward = StoredReward(
    id: string,
    title: string,
    description: string,
    icon: string,
    earnedAt: string)

  datatype RewardPayload = RewardPayload(title: string, description: string, icon: string)

  /** `{ ...profile, ...patch }`: fields in the patch win, the rest are kept. */
  function MergeProfile(p: Profile, patch: ProfilePatch): (r: Profile)
    ensures r.name == patch.name.GetOr(p.name)
    ensures r.email == patch.email.GetOr(p.email)
    ensures r.joinedDate == patch.joinedDate.GetOr(p.joinedDate)
    ensures r.totalStreak == patch.totalStreak.GetOr(p.totalStreak)
    ensures r.longestStreak == patch.longestStreak.GetOr(p.longestStreak)
  {
    Profile(
      patch.name.GetOr(p.name),
      patch.email.GetOr(p.email),
      patch.joinedDate.GetOr(p.joinedDate),
      patch.totalStreak.GetOr(p.totalStreak),
      patch.longestStreak.GetOr(p.longestStreak))
  }

  /** `{ ...settings, ...patch }`. */
  function MergeSettings(s: Settings, patch: SettingsPatch): (r: Settings)
    ensures r.theme == patch.theme.GetOr(s.theme)
    ensures r.notifications == patch.notifications.GetOr(s.notifications)
  {
    Settings(patch.theme.GetOr(s.theme), patch.notifications.GetOr(s.notifications))
  }

  /** Merging an empty patch changes nothing, and merging the same patch twice is merging it once. */
  lemma MergeIdempotent(p: Profile, patch: ProfilePatch, s: Settings, spatch: SettingsPatch)
    ensures MergeProfile(p, ProfilePatch(None, None, None, None, None)) == p
    ensures MergeProfile(MergeProfile(p, patch), patch) == MergeProfile(p, patch)
    ensures MergeSettings(s, SettingsPatch(None, None)) == s
    ensures MergeSettings(MergeSettings(s, spatch), spatch) == MergeSettings(s, spatch)
  {
  }

  /**
   * The profile after `updateStreakStats(total)`: the total is taken as
   * given and the longest streak becomes the larger of itself and the total.
   */
  function WithStreakStats(p: Profile, total: int): (r: Profile)
    ensures r.totalStreak == total
    ensures r.longestStreak >= p.longestStreak && r.longestStreak >= total
    ensures r.longestStreak == p.longestStreak || r.longestStreak == total
    ensures r.name == p.name && r.email == p.email && r.joinedDate == p.joinedDate
  {
    p.(totalStreak := total, longestStreak := if total > p.longestStreak then total else p.longestStreak)
  }

  /** The profile after a run of `updateStreakStats` calls, in order. */
  function AfterStreakStats(p: Profile, totals: seq<int>): Profile
    decreases |totals|
  {
    if totals == [] then p else AfterStreakStats(WithStreakStats(p, totals[0]), totals[1..])
  }

  /**
   * Over any run of updates the longest streak never decreases, is at least
   * every total reported, and is one of them or the starting value.
   */
  lemma {:induction false} LongestStreakIsRunningMax(p: Profile, totals: seq<int>)
    ensures var r := AfterStreakStats(p, totals);
      && r.longestStreak >= p.longestStreak
      && (forall i :: 0 <= i < |totals| ==> r.longestStreak >= totals[i])
      && (r.longestStreak == p.longestStreak || r.longestStreak in totals)
    decreases |totals|
  {
    if totals != [] {
      var q := WithStreakStats(p, totals[0]);
      LongestStreakIsRunningMax(q, totals[1..]);
      assert forall i :: 1 <= i < |totals| ==> totals[i] == totals[1..][i - 1];
    }
  }

  /** The user store; `joinedDate` is the clock reading taken when the store is created. */
  class UserState {
    var profile: Profile
    var rewards: seq<StoredReward>
    var settings: Settings

    constructor (joinedDate: string)
      ensures profile == Profile("", "", joinedDate, 0, 0)
      ensures rewards == []
      ensures settings == Settings("light", true)
    {
      profile := Profile("", "", joinedDate, 0, 0);
      rewards := [];
      settings := Settings("light", true);
    }

    method UpdateProfile(patch: ProfilePatch)
      modifies this
      ensures profile == MergeProfile(old(profile), patch)
      ensures rewards == old(rewards) && settings == old(settings)
    {
      profile := MergeProfile(profile, patch);
    }

    /** `addReward`: appends exactly one reward and leaves the earlier ones as they were. */
    method AddReward(id: string, earnedAt: string, payload: RewardPayload)
      modifies this
      ensures rewards == old(rewards) + [StoredReward(id, payload.title, payload.description, payload.icon, earnedAt)]
      ensures |rewards| == |old(rewards)| + 1 && rewards[..|old(rewards)|] == old(rewards)
      ensures profile == old(profile) && settings == old(settings)
    {
      rewards := rewards + [StoredReward(id, payload.title, payload.description, payload.icon, earnedAt)];
    }

    method UpdateSettings(patch: SettingsPatch)
      modifies this
      ensures settings == MergeSettings(old(settings), patch)
      ensures profile == old(profile) && rewards == old(rewards)
    {
      settings := MergeSettings(settings, patch);
    }

    /** `updateStreakStats`: the longest streak never decreases. */
    method UpdateStreakStats(totalStreak: int)
      modifies this
      ensures profile == WithStreakStats(old(profile), totalStreak)
      ensures profile.longestStreak >= old(profile.longestStreak)
      ensures rewards == old(rewards) && settings == old(settings)
    {
      profile := profile.(totalStreak := totalStreak);
      if totalStreak > profile.longestStreak {
        profile := profile.(longestStreak := totalStreak);
      }
    }

    /** `loadUserData`: profile and settings are kept when absent; rewards fall back to none. */
    method LoadUserData(newProfile: Option<Profile>, newRewards: Option<seq<StoredReward>>, newSettings: Option<Settings>)
      modifies this
      ensures profile == newProfile.GetOr(old(profile))
      ensures rewards == newRewards.GetOr([])
      ensures settings == newSettings.GetOr(old(settings))
    {
      profile := newProfile.GetOr(profile);
      rewards := newRewards.GetOr([]);
      settings := newSettings.GetOr(settings);
    }
  }
}
