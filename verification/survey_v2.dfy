/**
  The earlier escrow variant (`qstn_surveys_v2`). Its vault is derived from
  the owner alone, so all of an owner's surveys share one vault; participants
  are registered in a separate step, at an address derived from the
  participant alone; the controller chooses each payout amount, and nothing
  counts, limits or deduplicates payouts. Rotating the controller is gated on
  the owner.
 */
module SurveyV2 {
  import opened Ledger

  /** `#[max_len(128)]` on `Participation::zkp`. */
  const ZKP_MAX_LEN := 128

  datatype Survey = Survey(surveyId: u64, owner: Addr, controller: Addr)

  datatype Participation = Participation(zkp: Bytes)

  datatype State = State(
    lamports: Lamports,
    surveys: map<Addr, Survey>,
    participations: map<Addr, Participation>)

  /** The survey record loads and lives at the address derived from `owner`. */
  predicate SurveyAt(st: State, surveyAccount: Addr, owner: Addr) {
    && surveyAccount in st.surveys
    && surveyAccount == SurveyPda(owner, st.surveys[surveyAccount].surveyId)
  }

  /** `init_survey`: the caller becomes the owner of a new record at `SurveyPda(caller, surveyId)`. */
  function InitSurvey(
    st: State, caller: Wallet, surveyAccount: Addr, fundingAccount: Addr,
    surveyId: u64, controller: Addr): (r: Result<State>)
    ensures r.Ok? <==>
      && surveyAccount == SurveyPda(caller, surveyId)
      && surveyAccount !in st.surveys
      && fundingAccount == OwnerVaultPda(caller)
    ensures surveyAccount == SurveyPda(caller, surveyId) && surveyAccount in st.surveys ==>
      r == Err(AccountAlreadyInUse)
    ensures r.Ok? ==>
      && surveyAccount in r.value.surveys
      && var s := r.value.surveys[surveyAccount];
      && s.surveyId == surveyId && s.owner == caller && s.controller == controller
      && r.value.surveys - {surveyAccount} == st.surveys
      && r.value.participations == st.participations
      && r.value.lamports == st.lamports
  {
    if surveyAccount != SurveyPda(caller, surveyId) then Err(ConstraintSeeds)
    else if surveyAccount in st.surveys then Err(AccountAlreadyInUse)
    else if fundingAccount != OwnerVaultPda(caller) then Err(ConstraintSeeds)
    else Ok(st.(surveys := st.surveys[surveyAccount := Survey(surveyId, caller, controller)]))
  }

  /**
    `fund_survey`: the owner moves exactly `amount` into the owner's vault;
    there is no minimum.
   */
  function FundSurvey(
    st: State, caller: Wallet, surveyAccount: Addr, fundingAccount: Addr, amount: u64): (r: Result<State>)
    ensures SurveyAt(st, surveyAccount, caller) && fundingAccount == OwnerVaultPda(caller) ==>
      (r.Ok? <==> amount <= Balance(st.lamports, caller))
    ensures r.Ok? ==>
      && SurveyAt(st, surveyAccount, caller)
      // the vault depends on the owner only, not on the survey
      && fundingAccount == OwnerVaultPda(caller)
      && Moved(st.lamports, r.value.lamports, caller, fundingAccount, amount)
      && Sum(r.value.lamports) == Sum(st.lamports)
      && r.value.surveys == st.surveys
      && r.value.participations == st.participations
  {
    if surveyAccount !in st.surveys then Err(AccountNotInitialized)
    else
      var s := st.surveys[surveyAccount];
      if surveyAccount != SurveyPda(caller, s.surveyId) then Err(ConstraintSeeds)
      else if fundingAccount != OwnerVaultPda(caller) then Err(ConstraintSeeds)
      else
        var lamports :- Transfer(st.lamports, caller, fundingAccount, amount);
        Ok(st.(lamports := lamports))
  }

  /**
    `register_participant`: the controller creates the participation record
    for `participant`, at an address that does not depend on the survey.
   */
  function RegisterParticipant(
    st: State, caller: Wallet, surveyAccount: Addr, participation: Addr,
    participant: Addr, owner: Addr, zkp: Bytes): (r: Result<State>)
    ensures surveyAccount in st.surveys && participation == ParticipantPda(participant)
            && participation in st.participations ==>
      r == Err(AccountAlreadyInUse)
    ensures SurveyAt(st, surveyAccount, owner) && participation == ParticipantPda(participant)
            && participation !in st.participations ==>
      && (caller != st.surveys[surveyAccount].controller ==> r == Err(WrongController))
      && (caller == st.surveys[surveyAccount].controller ==> (r.Ok? <==> |zkp| <= ZKP_MAX_LEN))
    ensures r.Ok? ==>
      && SurveyAt(st, surveyAccount, owner)
      && caller == st.surveys[surveyAccount].controller
      && participation == ParticipantPda(participant)
      && participation !in st.participations
      && r.value.participations == st.participations[participation := Participation(zkp)]
      && r.value.surveys == st.surveys
      && r.value.lamports == st.lamports
  {
    if surveyAccount !in st.surveys then Err(AccountNotInitialized)
    else
      var s := st.surveys[surveyAccount];
      if participation != ParticipantPda(participant) then Err(ConstraintSeeds)
      else if participation in st.participations then Err(AccountAlreadyInUse)
      else if surveyAccount != SurveyPda(owner, s.surveyId) then Err(ConstraintSeeds)
      else if caller != s.controller then Err(WrongController)
      else if |zkp| > ZKP_MAX_LEN then Err(AccountDidNotSerialize)
      else Ok(st.(participations := st.participations[participation := Participation(zkp)]))
  }

  /** The accounts of `payout` pass their constraints. */
  predicate PayoutAccountsOk(
    st: State, surveyAccount: Addr, fundingAccount: Addr,
    participation: Addr, participant: Addr, owner: Addr)
  {
    && SurveyAt(st, surveyAccount, owner)
    && participation in st.participations
    && fundingAccount == OwnerVaultPda(owner)
    && participation == ParticipantPda(participant)
  }

  /**
    `payout`: the controller sends a caller-chosen `amount` from the owner's
    vault to a registered participant. No record changes.
   */
  function Payout(
    st: State, caller: Wallet, surveyAccount: Addr, fundingAccount: Addr,
    participation: Addr, participant: Addr, owner: Addr, amount: u64): (r: Result<State>)
    // the participation record must already exist; payout does not create it
    ensures surveyAccount in st.surveys && participation !in st.participations ==>
      r == Err(AccountNotInitialized)
    ensures PayoutAccountsOk(st, surveyAccount, fundingAccount, participation, participant, owner) ==>
      && (caller != st.surveys[surveyAccount].controller ==> r == Err(WrongController))
      && (caller == st.surveys[surveyAccount].controller ==>
            (r.Ok? <==> amount <= Balance(st.lamports, fundingAccount)))
    ensures r.Ok? ==>
      && PayoutAccountsOk(st, surveyAccount, fundingAccount, participation, participant, owner)
      && caller == st.surveys[surveyAccount].controller
      && Moved(st.lamports, r.value.lamports, fundingAccount, participant, amount)
      && Sum(r.value.lamports) == Sum(st.lamports)
      && r.value.surveys == st.surveys
      && r.value.participations == st.participations
  {
    if surveyAccount !in st.surveys then Err(AccountNotInitialized)
    else if participation !in st.participations then Err(AccountNotInitialized)
    else
      var s := st.surveys[surveyAccount];
      if surveyAccount != SurveyPda(owner, s.surveyId) then Err(ConstraintSeeds)
      else if fundingAccount != OwnerVaultPda(owner) then Err(ConstraintSeeds)
      else if participation != ParticipantPda(participant) then Err(ConstraintSeeds)
      else if caller != s.controller then Err(WrongController)
      else
        var lamports :- Transfer(st.lamports, fundingAccount, participant, amount);
        Ok(st.(lamports := lamports))
  }

  /**
    `change_controller`: the owner signs; the survey's address is checked
    against the owner's derivation and then `has_one = owner` compares the
    stored owner. Only the controller is overwritten.
   */
  function ChangeController(
    st: State, owner: Wallet, surveyAccount: Addr, controller: Addr): (r: Result<State>)
    ensures surveyAccount in st.surveys && surveyAccount == SurveyPda(owner, st.surveys[surveyAccount].surveyId) ==>
      && (st.surveys[surveyAccount].owner != owner ==> r == Err(NotTheOwner))
      && (st.surveys[surveyAccount].owner == owner ==> r.Ok?)
    ensures r.Ok? ==>
      && surveyAccount in st.surveys
      && var s := st.surveys[surveyAccount];
      && s.owner == owner
      && r.value.surveys == st.surveys[surveyAccount := s.(controller := controller)]
      && r.value.participations == st.participations
      && r.value.lamports == st.lamports
  {
    if surveyAccount !in st.surveys then Err(AccountNotInitialized)
    else
      var s := st.surveys[surveyAccount];
      if surveyAccount != SurveyPda(owner, s.surveyId) then Err(ConstraintSeeds)
      else if s.owner != owner then Err(NotTheOwner)
      else Ok(st.(surveys := st.surveys[surveyAccount := s.(controller := controller)]))
  }

  datatype Instruction =
    | InitSurveyIx(caller: Wallet, surveyAccount: Addr, fundingAccount: Addr, surveyId: u64, controller: Addr)
    | FundSurveyIx(caller: Wallet, surveyAccount: Addr, fundingAccount: Addr, amount: u64)
    | RegisterParticipantIx(caller: Wallet, surveyAccount: Addr, participation: Addr,
                            participant: Addr, owner: Addr, zkp: Bytes)
    | PayoutIx(caller: Wallet, surveyAccount: Addr, fundingAccount: Addr,
               participation: Addr, participant: Addr, owner: Addr, amount: u64)
    | ChangeControllerIx(caller: Wallet, surveyAccount: Addr, controller: Addr)

  function Execute(st: State, ix: Instruction): Result<State> {
    match ix
    case InitSurveyIx(caller, sa, fa, id, controller) => InitSurvey(st, caller, sa, fa, id, controller)
    case FundSurveyIx(caller, sa, fa, amount) => FundSurvey(st, caller, sa, fa, amount)
    case RegisterParticipantIx(caller, sa, pa, participant, owner, zkp) =>
      RegisterParticipant(st, caller, sa, pa, participant, owner, zkp)
    case PayoutIx(caller, sa, fa, pa, participant, owner, amount) =>
      Payout(st, caller, sa, fa, pa, participant, owner, amount)
    case ChangeControllerIx(owner, sa, controller) => ChangeController(st, owner, sa, controller)
  }

  /**
    Every survey record lives at the address derived from its own owner and
    id, its owner is a wallet, and every participation record sits at a
    participant's derived address.
   */
  ghost predicate Valid(st: State) {
    && (forall a | a in st.surveys :: a == SurveyPda(st.surveys[a].owner, st.surveys[a].surveyId)
                                       && st.surveys[a].owner.Key?)
    && (forall p | p in st.participations :: p.ParticipantPda?)
  }

  /** Every instruction keeps the invariant, and a survey's owner and id never change. */
  lemma ExecuteKeepsValid(st: State, ix: Instruction)
    requires Valid(st)
    ensures Valid(Apply(Execute, st, ix))
    ensures forall a | a in st.surveys ::
      && a in Apply(Execute, st, ix).surveys
      && Apply(Execute, st, ix).surveys[a].owner == st.surveys[a].owner
      && Apply(Execute, st, ix).surveys[a].surveyId == st.surveys[a].surveyId
  {
  }

  /** Owner and id of every survey that exists in `st` are the same in `st'`. */
  ghost predicate OwnersKept(st: State, st': State) {
    forall a | a in st.surveys ::
      && a in st'.surveys
      && st'.surveys[a].owner == st.surveys[a].owner
      && st'.surveys[a].surveyId == st.surveys[a].surveyId
  }

  /**
    Over any sequence of transactions from a valid state: the invariant
    holds, no survey changes hands or id, and no lamport is created or
    destroyed.
   */
  lemma RunKeepsValid(st: State, ixs: seq<Instruction>)
    requires Valid(st)
    ensures var st' := Run(Execute, st, ixs);
      Valid(st') && OwnersKept(st, st') && Sum(st'.lamports) == Sum(st.lamports)
  {
    var inv := (s: State) => Valid(s) && OwnersKept(st, s) && Sum(s.lamports) == Sum(st.lamports);
    forall s, ix | inv(s) ensures inv(Apply(Execute, s, ix)) {
      ExecuteKeepsValid(s, ix);
    }
    RunKeeps(Execute, inv, st, ixs);
  }

  /**
    With the invariant, the `seeds` check on the survey already pins the
    signer to the stored owner, so the `has_one = owner` check never reports
    `NotTheOwner`, and a successful rotation was signed by the owner.
   */
  lemma ChangeControllerOnlyByOwner(st: State, owner: Wallet, sa: Addr, controller: Addr)
    requires Valid(st)
    ensures ChangeController(st, owner, sa, controller) != Err(NotTheOwner)
    ensures ChangeController(st, owner, sa, controller).Ok? <==>
      sa in st.surveys && st.surveys[sa].owner == owner
  {
  }

  /** Two surveys of one owner are funded into the same vault. */
  lemma VaultSharedByOwner(st: State, caller: Wallet, sa1: Addr, sa2: Addr, fa1: Addr, fa2: Addr,
                           amount1: u64, amount2: u64)
    requires FundSurvey(st, caller, sa1, fa1, amount1).Ok?
    requires FundSurvey(st, caller, sa2, fa2, amount2).Ok?
    ensures fa1 == fa2 == OwnerVaultPda(caller)
  {
  }

  /** No instruction removes a registration. */
  lemma ExecuteKeepsRegistrations(st: State, ix: Instruction)
    ensures st.participations.Keys <= Apply(Execute, st, ix).participations.Keys
  {
  }

  /** Registrations survive any sequence of transactions. */
  lemma {:induction false} RunKeepsRegistrations(st: State, ixs: seq<Instruction>)
    ensures st.participations.Keys <= Run(Execute, st, ixs).participations.Keys
    decreases |ixs|
  {
    if ixs != [] {
      ExecuteKeepsRegistrations(st, ixs[0]);
      RunKeepsRegistrations(Apply(Execute, st, ixs[0]), ixs[1..]);
    }
  }

  /**
    Registration is global: once `participant` is registered through any
    survey, registering it again through any existing survey fails, however
    many transactions come in between.
   */
  lemma RegisteredOnceAcrossSurveys(
    st: State, caller: Wallet, sa: Addr, pa: Addr, participant: Addr, owner: Addr, zkp: Bytes,
    ixs: seq<Instruction>, caller2: Wallet, sa2: Addr, owner2: Addr, zkp2: Bytes)
    requires RegisterParticipant(st, caller, sa, pa, participant, owner, zkp).Ok?
    requires sa2 in Run(Execute, RegisterParticipant(st, caller, sa, pa, participant, owner, zkp).value, ixs).surveys
    ensures var st' := RegisterParticipant(st, caller, sa, pa, participant, owner, zkp).value;
      RegisterParticipant(Run(Execute, st', ixs), caller2, sa2, pa, participant, owner2, zkp2)
        == Err(AccountAlreadyInUse)
  {
    var st' := RegisterParticipant(st, caller, sa, pa, participant, owner, zkp).value;
    RunKeepsRegistrations(st', ixs);
  }

  /**
    No deduplication: a payout changes no record, so the same payout can be
    repeated for as long as the vault still covers the amount.
   */
  lemma PayoutRepeatable(
    st: State, caller: Wallet, sa: Addr, fa: Addr, pa: Addr, participant: Addr, owner: Addr, amount: u64)
    requires Payout(st, caller, sa, fa, pa, participant, owner, amount).Ok?
    ensures var st' := Payout(st, caller, sa, fa, pa, participant, owner, amount).value;
      var again := Payout(st', caller, sa, fa, pa, participant, owner, amount);
      again.Ok? <==> amount <= Balance(st'.lamports, fa)
  {
  }

  /**
    After the owner rotates the controller, the previous controller's payouts
    fail with error 6000 and the new controller's payouts are accepted.
   */
  lemma ChangeControllerRevokesOld(
    st: State, owner: Wallet, sa: Addr, oldController: Wallet, newController: Wallet,
    fa: Addr, pa: Addr, participant: Addr, amount: u64)
    requires ChangeController(st, owner, sa, newController).Ok?
    requires oldController != newController
    requires PayoutAccountsOk(st, sa, fa, pa, participant, owner)
    ensures var st' := ChangeController(st, owner, sa, newController).value;
      && Payout(st', oldController, sa, fa, pa, participant, owner, amount) == Err(WrongController)
      && WrongController.CustomNumber() == 6000
      && (amount <= Balance(st'.lamports, fa) ==>
            Payout(st', newController, sa, fa, pa, participant, owner, amount).Ok?)
  {
  }
}
