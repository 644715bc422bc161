/**
  The survey reward escrow (`qstn-survey-native`). An owner creates a survey
  record at an address derived from (owner, survey id), funds a vault derived
  from (survey, owner), and a controller pays a fixed reward to each
  participant once, up to a participant limit. A participation marker created
  with `init` at an address derived from (survey, participant) is what stops a
  second payout to the same participant.

  Each instruction lists the accounts the caller supplies; the Anchor
  constraints on them are checked in the order the framework checks them:
  records are loaded first, then `init` accounts are created, then the
  remaining `seeds` constraints, then the handler body, and finally the
  records are written back into their allocated space.
 */
module NativeSurvey {
  import opened Ledger

  /** Bytes reserved for `survey_uuid` in the survey account's `space`. */
  const SURVEY_UUID_MAX_LEN := 64
  /** `#[max_len(128)]` on `Participation::zkp`. */
  const ZKP_MAX_LEN := 128

  datatype Survey = Survey(
    surveyId: u64,
    surveyUuid: Bytes,
    owner: Addr,
    controller: Addr,
    participantsLimit: u64,
    rewardAmount: u64,
    participantsCount: u64)

  /** A participation marker; the proof string is stored and never read. */
  datatype Participation = Participation(zkp: Bytes)

  /** The accounts the program reads and writes, plus every lamport balance. */
  datatype State = State(
    lamports: Lamports,
    surveys: map<Addr, Survey>,
    participations: map<Addr, Participation>)

  /** The survey record loads and lives at the address derived from `owner`. */
  predicate SurveyAt(st: State, surveyAccount: Addr, owner: Addr) {
    && surveyAccount in st.surveys
    && surveyAccount == SurveyPda(owner, st.surveys[surveyAccount].surveyId)
  }

  /**
    `init_survey`: the caller becomes the owner of a new survey record at
    `SurveyPda(caller, surveyId)`. The limit and the reward are stored as given,
    without any check that they are positive.
   */
  function InitSurvey(
    st: State, caller: Wallet, surveyAccount: Addr, fundingAccount: Addr,
    surveyId: u64, surveyUuid: Bytes, controller: Addr,
    participantsLimit: u64, rewardAmount: u64): (r: Result<State>)
    ensures r.Ok? <==>
      && surveyAccount == SurveyPda(caller, surveyId)
      && surveyAccount !in st.surveys
      && fundingAccount == VaultPda(surveyAccount, caller)
      && |surveyUuid| <= SURVEY_UUID_MAX_LEN
    ensures surveyAccount == SurveyPda(caller, surveyId) && surveyAccount in st.surveys ==>
      r == Err(AccountAlreadyInUse)
    ensures r.Ok? ==>
      && surveyAccount in r.value.surveys
      && var s := r.value.surveys[surveyAccount];
      && s.surveyId == surveyId && s.surveyUuid == surveyUuid
      && s.owner == caller && s.controller == controller
      && s.participantsLimit == participantsLimit && s.rewardAmount == rewardAmount
      && s.participantsCount == 0
    ensures r.Ok? ==>
      && r.value.surveys - {surveyAccount} == st.surveys
      && r.value.participations == st.participations
      && r.value.lamports == st.lamports
  {
    if surveyAccount != SurveyPda(caller, surveyId) then Err(ConstraintSeeds)
    else if surveyAccount in st.surveys then Err(AccountAlreadyInUse)
    else if fundingAccount != VaultPda(surveyAccount, caller) then Err(ConstraintSeeds)
    else if |surveyUuid| > SURVEY_UUID_MAX_LEN then Err(AccountDidNotSerialize)
    else
      var s := Survey(surveyId, surveyUuid, caller, controller, participantsLimit, rewardAmount, 0);
      Ok(st.(surveys := st.surveys[surveyAccount := s]))
  }

  /** The accounts of `fund_survey` pass their constraints: the caller is the owner of the survey. */
  predicate FundAccountsOk(st: State, caller: Wallet, surveyAccount: Addr, fundingAccount: Addr) {
    && SurveyAt(st, surveyAccount, caller)
    && fundingAccount == VaultPda(surveyAccount, caller)
  }

  /**
    `fund_survey`: the caller moves `amount` into the vault and `fee` to the
    controller. The amount must cover `participants_limit * reward_amount`,
    a product computed in `u64` that aborts the transaction on overflow.
   */
  function FundSurvey(
    st: State, caller: Wallet, surveyAccount: Addr, fundingAccount: Addr,
    controller: Addr, amount: u64, fee: u64): (r: Result<State>)
    ensures r.Ok? ==>
      && FundAccountsOk(st, caller, surveyAccount, fundingAccount)
      && var s := st.surveys[surveyAccount];
      && s.participantsLimit * s.rewardAmount <= amount
      && controller == s.controller
    ensures r.Ok? ==>
      && r.value.surveys == st.surveys
      && r.value.participations == st.participations
      && (forall a {:trigger Balance(r.value.lamports, a)} ::
            Balance(r.value.lamports, a) + (if a == caller then amount + fee else 0)
              == Balance(st.lamports, a)
                 + (if a == fundingAccount then amount else 0)
                 + (if a == controller then fee else 0))
      && Sum(r.value.lamports) == Sum(st.lamports)
    ensures FundAccountsOk(st, caller, surveyAccount, fundingAccount) ==>
      var s := st.surveys[surveyAccount];
      && (s.participantsLimit * s.rewardAmount > U64_MAX ==> r == Err(ArithmeticOverflow))
      && (amount < s.participantsLimit * s.rewardAmount <= U64_MAX ==> r == Err(InsufficientFunds))
      && (s.participantsLimit * s.rewardAmount <= amount && controller != s.controller ==>
            r == Err(WrongController))
      && (s.participantsLimit * s.rewardAmount <= amount && controller == s.controller ==>
            (r.Ok? <==> amount + fee <= Balance(st.lamports, caller)))
  {
    if surveyAccount !in st.surveys then Err(AccountNotInitialized)
    else
      var s := st.surveys[surveyAccount];
      if surveyAccount != SurveyPda(caller, s.surveyId) then Err(ConstraintSeeds)
      else if fundingAccount != VaultPda(surveyAccount, caller) then Err(ConstraintSeeds)
      else
        var minimumAmount :- CheckedMulU64(s.participantsLimit, s.rewardAmount);
        if amount < minimumAmount then Err(InsufficientFunds)
        else if controller != s.controller then Err(WrongController)
        else
          var funded :- Transfer(st.lamports, caller, fundingAccount, amount);
          var paid :- Transfer(funded, caller, controller, fee);
          Ok(st.(lamports := paid))
  }

  /**
    The accounts of `payout` pass their `seeds` constraints: the survey was
    created by `owner`, the vault is that survey's, and the participation
    marker is the one for (survey, participant).
   */
  predicate PayoutAccountsOk(
    st: State, surveyAccount: Addr, fundingAccount: Addr,
    participation: Addr, participant: Addr, owner: Addr)
  {
    && SurveyAt(st, surveyAccount, owner)
    && fundingAccount == VaultPda(surveyAccount, owner)
    && participation == PartPda(surveyAccount, participant)
  }

  /**
    `payout`: the controller pays the survey's reward from the vault to
    `participant`, creates the participation marker and counts one more
    participant. Nothing checks the vault balance beforehand; an under-funded
    vault shows up as the transfer failing.
   */
  function Payout(
    st: State, caller: Wallet, surveyAccount: Addr, fundingAccount: Addr,
    participation: Addr, participant: Addr, owner: Addr, zkp: Bytes): (r: Result<State>)
    // a marker that already exists wins over every check of the handler
    ensures surveyAccount in st.surveys && participation == PartPda(surveyAccount, participant)
            && participation in st.participations ==>
      r == Err(AccountAlreadyInUse)
    ensures PayoutAccountsOk(st, surveyAccount, fundingAccount, participation, participant, owner)
            && participation !in st.participations ==>
      var s := st.surveys[surveyAccount];
      && (caller != s.controller ==> r == Err(WrongController))
      && (caller == s.controller && s.participantsCount >= s.participantsLimit ==>
            r == Err(ParticipantsLimitReached))
      && (caller == s.controller && s.participantsCount < s.participantsLimit ==>
            (r.Ok? <==> s.rewardAmount <= Balance(st.lamports, fundingAccount) && |zkp| <= ZKP_MAX_LEN))
    ensures r.Ok? ==>
      && PayoutAccountsOk(st, surveyAccount, fundingAccount, participation, participant, owner)
      && participation !in st.participations
      && var s := st.surveys[surveyAccount];
      && caller == s.controller
      && s.participantsCount < s.participantsLimit
      // exactly one more participant; every other field of the record is kept
      && r.value.surveys == st.surveys[surveyAccount := s.(participantsCount := s.participantsCount + 1)]
      // the marker now exists, so this participant cannot be paid again
      && r.value.participations == st.participations[participation := Participation(zkp)]
      && Moved(st.lamports, r.value.lamports, fundingAccount, participant, s.rewardAmount)
      && Sum(r.value.lamports) == Sum(st.lamports)
  {
    if surveyAccount !in st.surveys then Err(AccountNotInitialized)
    else
      var s := st.surveys[surveyAccount];
      if participation != PartPda(surveyAccount, participant) then Err(ConstraintSeeds)
      else if participation in st.participations then Err(AccountAlreadyInUse)
      else if surveyAccount != SurveyPda(owner, s.surveyId) then Err(ConstraintSeeds)
      else if fundingAccount != VaultPda(surveyAccount, owner) then Err(ConstraintSeeds)
      else if caller != s.controller then Err(WrongController)
      else if s.participantsCount >= s.participantsLimit then Err(ParticipantsLimitReached)
      else
        var lamports :- Transfer(st.lamports, fundingAccount, participant, s.rewardAmount);
        if |zkp| > ZKP_MAX_LEN then Err(AccountDidNotSerialize)
        else
          // cannot overflow: the count is below a u64 limit
          var s' := s.(participantsCount := s.participantsCount + 1);
          Ok(State(lamports,
                   st.surveys[surveyAccount := s'],
                   st.participations[participation := Participation(zkp)]))
  }

  /**
    `change_controller`: gated on the CURRENT CONTROLLER, not on the owner;
    the `owner` account only serves to check the survey's address.
   */
  function ChangeController(
    st: State, caller: Wallet, surveyAccount: Addr, owner: Addr, controller: Addr): (r: Result<State>)
    ensures SurveyAt(st, surveyAccount, owner) ==>
      (r.Ok? <==> caller == st.surveys[surveyAccount].controller)
    ensures SurveyAt(st, surveyAccount, owner) && caller != st.surveys[surveyAccount].controller ==>
      r == Err(WrongController)
    ensures r.Ok? ==>
      && SurveyAt(st, surveyAccount, owner)
      && var s := st.surveys[surveyAccount];
      && r.value.surveys == st.surveys[surveyAccount := s.(controller := controller)]
      && r.value.participations == st.participations
      && r.value.lamports == st.lamports
  {
    if surveyAccount !in st.surveys then Err(AccountNotInitialized)
    else
      var s := st.surveys[surveyAccount];
      if surveyAccount != SurveyPda(owner, s.surveyId) then Err(ConstraintSeeds)
      else if caller != s.controller then Err(WrongController)
      else Ok(st.(surveys := st.surveys[surveyAccount := s.(controller := controller)]))
  }

  /**
    `emergency_withdraw`: the controller sends the vault's whole balance to
    the owner. The records are not touched.
   */
  function EmergencyWithdraw(
    st: State, caller: Wallet, surveyAccount: Addr, fundingAccount: Addr, owner: Addr): (r: Result<State>)
    ensures SurveyAt(st, surveyAccount, owner) && fundingAccount == VaultPda(surveyAccount, owner) ==>
      var s := st.surveys[surveyAccount];
      && (caller != s.controller ==> r == Err(WrongController))
      && (caller == s.controller && owner != s.owner ==> r == Err(NotTheOwner))
      && (caller == s.controller && owner == s.owner ==> r.Ok?)
    ensures r.Ok? ==>
      && SurveyAt(st, surveyAccount, owner)
      && fundingAccount == VaultPda(surveyAccount, owner)
      && var s := st.surveys[surveyAccount];
      && caller == s.controller && owner == s.owner
      && Balance(r.value.lamports, fundingAccount) == 0
      && Moved(st.lamports, r.value.lamports, fundingAccount, owner, Balance(st.lamports, fundingAccount))
      && Sum(r.value.lamports) == Sum(st.lamports)
      && r.value.surveys == st.surveys
      && r.value.participations == st.participations
  {
    if surveyAccount !in st.surveys then Err(AccountNotInitialized)
    else
      var s := st.surveys[surveyAccount];
      if surveyAccount != SurveyPda(owner, s.surveyId) then Err(ConstraintSeeds)
      else if fundingAccount != VaultPda(surveyAccount, owner) then Err(ConstraintSeeds)
      else if caller != s.controller then Err(WrongController)
      else if owner != s.owner then Err(NotTheOwner)
      else
        var balance := Balance(st.lamports, fundingAccount);
        // the vault always covers its own balance, so this transfer succeeds; a
        // `match` rather than `:-`, whose failure branch would be unreachable code
        match Transfer(st.lamports, fundingAccount, owner, balance)
        case Ok(lamports) => Ok(st.(lamports := lamports))
        case Err(e) => Err(e)
  }
}
