/**
  The counter pair (`qstn_surveys`): a `u8` survey counter per user at
  `["survey", user]` and a `u8` reward counter per (user, admin) at
  `["reward", user, admin]`. `update_reward` catches the reward counter up
  with the survey counter through `reward += survey - reward`, both steps in
  checked `u8` arithmetic.
 */
module Counters {
  import opened Ledger

  /** A counter account; the stored canonical bump is left out. */
  datatype Counter = Counter(count: u8)

  datatype State = State(surveys: map<Addr, Counter>, rewards: map<Addr, Counter>)

  /** The survey counter of `user`, read as 0 while it does not exist. */
  function SurveyCount(st: State, user: Addr): u8 {
    if CounterPda(user) in st.surveys then st.surveys[CounterPda(user)].count else 0
  }

  /** `create_survey`: at most one survey counter per user, starting at 0. */
  function CreateSurvey(st: State, user: Wallet, survey: Addr): (r: Result<State>)
    ensures r.Ok? <==> survey == CounterPda(user) && survey !in st.surveys
    ensures survey == CounterPda(user) && survey in st.surveys ==> r == Err(AccountAlreadyInUse)
    ensures r.Ok? ==>
      && survey in r.value.surveys && r.value.surveys[survey].count == 0
      && r.value.surveys - {survey} == st.surveys
      && r.value.rewards == st.rewards
  {
    if survey != CounterPda(user) then Err(ConstraintSeeds)
    else if survey in st.surveys then Err(AccountAlreadyInUse)
    else Ok(st.(surveys := st.surveys[survey := Counter(0)]))
  }

  /** `increment_survey`: one more, up to the `u8` ceiling of 255. */
  function IncrementSurvey(st: State, user: Wallet, survey: Addr): (r: Result<State>)
    ensures survey in st.surveys && survey == CounterPda(user) ==>
      && (st.surveys[survey].count == U8_MAX ==> r == Err(ArithmeticOverflow))
      && (st.surveys[survey].count < U8_MAX ==> r.Ok?)
    ensures r.Ok? ==>
      && survey == CounterPda(user) && survey in st.surveys
      && r.value.surveys == st.surveys[survey := Counter(st.surveys[survey].count + 1)]
      && r.value.rewards == st.rewards
  {
    if survey !in st.surveys then Err(AccountNotInitialized)
    else if survey != CounterPda(user) then Err(ConstraintSeeds)
    else
      var count :- CheckedAddU8(st.surveys[survey].count, 1);
      Ok(st.(surveys := st.surveys[survey := Counter(count)]))
  }

  /** `create_reward`: at most one reward counter per (user, admin), starting at 0. */
  function CreateReward(st: State, user: Wallet, admin: Addr, reward: Addr): (r: Result<State>)
    ensures r.Ok? <==> reward == RewardPda(user, admin) && reward !in st.rewards
    ensures reward == RewardPda(user, admin) && reward in st.rewards ==> r == Err(AccountAlreadyInUse)
    ensures r.Ok? ==>
      && reward in r.value.rewards && r.value.rewards[reward].count == 0
      && r.value.rewards - {reward} == st.rewards
      && r.value.surveys == st.surveys
  {
    if reward != RewardPda(user, admin) then Err(ConstraintSeeds)
    else if reward in st.rewards then Err(AccountAlreadyInUse)
    else Ok(st.(rewards := st.rewards[reward := Counter(0)]))
  }

  /**
    `update_reward`: `reward.count += survey.count - reward.count`. The
    subtraction aborts when the reward counter is ahead of the survey counter.
   */
  function UpdateReward(st: State, user: Wallet, admin: Addr, reward: Addr, survey: Addr): (r: Result<State>)
    ensures r.Ok? ==>
      && reward == RewardPda(user, admin) && reward in st.rewards
      && survey == CounterPda(user) && survey in st.surveys
      && st.rewards[reward].count <= st.surveys[survey].count
      // the reward counter now equals the survey counter, which is unchanged
      && r.value.rewards == st.rewards[reward := st.surveys[survey]]
      && r.value.surveys == st.surveys
    ensures reward == RewardPda(user, admin) && reward in st.rewards
            && survey == CounterPda(user) && survey in st.surveys ==>
      (r.Ok? <==> st.rewards[reward].count <= st.surveys[survey].count)
  {
    if reward !in st.rewards then Err(AccountNotInitialized)
    else if survey !in st.surveys then Err(AccountNotInitialized)
    else if reward != RewardPda(user, admin) then Err(ConstraintSeeds)
    else if survey != CounterPda(user) then Err(ConstraintSeeds)
    else
      var r := st.rewards[reward].count;
      var s := st.surveys[survey].count;
      var gap :- CheckedSubU8(s, r);
      var count :- CheckedAddU8(r, gap);
      Ok(st.(rewards := st.rewards[reward := Counter(count)]))
  }

  datatype Instruction =
    | CreateSurveyIx(user: Wallet, survey: Addr)
    | IncrementSurveyIx(user: Wallet, survey: Addr)
    | CreateRewardIx(user: Wallet, admin: Addr, reward: Addr)
    | UpdateRewardIx(user: Wallet, admin: Addr, reward: Addr, survey: Addr)

  function Execute(st: State, ix: Instruction): Result<State> {
    match ix
    case CreateSurveyIx(user, survey) => CreateSurvey(st, user, survey)
    case IncrementSurveyIx(user, survey) => IncrementSurvey(st, user, survey)
    case CreateRewardIx(user, admin, reward) => CreateReward(st, user, admin, reward)
    case UpdateRewardIx(user, admin, reward, survey) => UpdateReward(st, user, admin, reward, survey)
  }

  /**
    Every counter sits at its derived address, and no reward counter is ahead
    of its user's survey counter (a reward counter whose user has no survey
    counter is still 0).
   */
  ghost predicate Valid(st: State) {
    && (forall a | a in st.surveys :: a.CounterPda?)
    && (forall a | a in st.rewards :: a.RewardPda? && st.rewards[a].count <= SurveyCount(st, a.user))
  }

  /** Every instruction keeps the invariant, and no survey counter ever goes down. */
  lemma ExecuteKeepsValid(st: State, ix: Instruction)
    requires Valid(st)
    ensures Valid(Apply(Execute, st, ix))
    ensures forall u :: SurveyCount(st, u) <= SurveyCount(Apply(Execute, st, ix), u)
  {
    var st' := Apply(Execute, st, ix);
    if Execute(st, ix).Ok? {
      match ix
      case CreateSurveyIx(user, survey) =>
        forall a | a in st'.rewards ensures st'.rewards[a].count <= SurveyCount(st', a.user) {
          assert SurveyCount(st, a.user) <= SurveyCount(st', a.user);
        }
      case IncrementSurveyIx(user, survey) =>
        forall a | a in st'.rewards ensures st'.rewards[a].count <= SurveyCount(st', a.user) {
          assert SurveyCount(st, a.user) <= SurveyCount(st', a.user);
        }
      case CreateRewardIx(_, _, _) =>
      case UpdateRewardIx(_, _, _, _) =>
    }
  }

  /** The invariant holds after any sequence of transactions, and no survey counter ever went down. */
  lemma RunKeepsValid(st: State, ixs: seq<Instruction>)
    requires Valid(st)
    ensures Valid(Run(Execute, st, ixs))
    ensures forall u :: SurveyCount(st, u) <= SurveyCount(Run(Execute, st, ixs), u)
  {
    var inv := (s: State) => Valid(s) && forall u :: SurveyCount(st, u) <= SurveyCount(s, u);
    forall s, ix | inv(s) ensures inv(Apply(Execute, s, ix)) {
      ExecuteKeepsValid(s, ix);
    }
    RunKeeps(Execute, inv, st, ixs);
  }

  /**
    With the invariant, `survey.count - reward.count` never underflows, so
    `update_reward` succeeds whenever its accounts are the right ones.
   */
  lemma UpdateRewardNeverUnderflows(st: State, user: Wallet, admin: Addr)
    requires Valid(st)
    requires RewardPda(user, admin) in st.rewards && CounterPda(user) in st.surveys
    ensures UpdateReward(st, user, admin, RewardPda(user, admin), CounterPda(user)).Ok?
  {
  }

  /** Calling `update_reward` twice leaves the same state as calling it once. */
  lemma UpdateRewardIdempotent(st: State, user: Wallet, admin: Addr, reward: Addr, survey: Addr)
    requires UpdateReward(st, user, admin, reward, survey).Ok?
    ensures var st' := UpdateReward(st, user, admin, reward, survey).value;
      UpdateReward(st', user, admin, reward, survey) == Ok(st')
  {
    var st' := UpdateReward(st, user, admin, reward, survey).value;
    assert st'.rewards[reward := st'.surveys[survey]] == st'.rewards;
  }
}
