/**
  Properties of the survey reward escrow over whole sequences of
  transactions: the record invariant every instruction keeps, at most one
  payout per (survey, participant), at most `participants_limit` payouts per
  survey, conservation of lamports, and the effect of rotating the controller.
 */
module NativeSurveyProofs {
  import opened Ledger
  import opened NativeSurvey

  /** One transaction of the program: an instruction with its accounts and arguments. */
  datatype Instruction =
    | InitSurveyIx(caller: Wallet, surveyAccount: Addr, fundingAccount: Addr,
                   surveyId: u64, surveyUuid: Bytes, controller: Addr,
                   participantsLimit: u64, rewardAmount: u64)
    | FundSurveyIx(caller: Wallet, surveyAccount: Addr, fundingAccount: Addr,
                   controller: Addr, amount: u64, fee: u64)
    | PayoutIx(caller: Wallet, surveyAccount: Addr, fundingAccount: Addr,
               participation: Addr, participant: Addr, owner: Addr, zkp: Bytes)
    | ChangeControllerIx(caller: Wallet, surveyAccount: Addr, owner: Addr, controller: Addr)
    | EmergencyWithdrawIx(caller: Wallet, surveyAccount: Addr, fundingAccount: Addr, owner: Addr)

  function Execute(st: State, ix: Instruction): Result<State> {
    match ix
    case InitSurveyIx(caller, sa, fa, id, uuid, controller, limit, reward) =>
      InitSurvey(st, caller, sa, fa, id, uuid, controller, limit, reward)
    case FundSurveyIx(caller, sa, fa, controller, amount, fee) =>
      FundSurvey(st, caller, sa, fa, controller, amount, fee)
    case PayoutIx(caller, sa, fa, pa, participant, owner, zkp) =>
      Payout(st, caller, sa, fa, pa, participant, owner, zkp)
    case ChangeControllerIx(caller, sa, owner, controller) =>
      ChangeController(st, caller, sa, owner, controller)
    case EmergencyWithdrawIx(caller, sa, fa, owner) =>
      EmergencyWithdraw(st, caller, sa, fa, owner)
  }

  /** The participation marker `ix` creates, if it is a payout that succeeds. */
  function Created(st: State, ix: Instruction): seq<Addr> {
    if ix.PayoutIx? && Execute(st, ix).Ok? then [ix.participation] else []
  }

  /** The markers created by the successful payouts of `ixs`, one per payout, in order. */
  function Paid(st: State, ixs: seq<Instruction>): seq<Addr>
    decreases |ixs|
  {
    if ixs == [] then [] else Created(st, ixs[0]) + Paid(Apply(Execute, st, ixs[0]), ixs[1..])
  }

  /** How many entries of `ms` are markers of the survey at `surveyAccount`. */
  function CountFor(ms: seq<Addr>, surveyAccount: Addr): nat
    decreases |ms|
  {
    if ms == [] then 0
    else (if ms[0].PartPda? && ms[0].survey == surveyAccount then 1 else 0)
         + CountFor(ms[1..], surveyAccount)
  }

  /** The markers of one survey. */
  function Markers(st: State, surveyAccount: Addr): set<Addr> {
    set m | m in st.participations.Keys && m.PartPda? && m.survey == surveyAccount
  }

  /** Participants paid so far by the survey at `surveyAccount` (none when it does not exist). */
  function Participants(st: State, surveyAccount: Addr): nat {
    if surveyAccount in st.surveys then st.surveys[surveyAccount].participantsCount else 0
  }

  ghost predicate WellFormedSurvey(a: Addr, s: Survey) {
    && a == SurveyPda(s.owner, s.surveyId)
    && s.owner.Key?
    && s.participantsCount <= s.participantsLimit
    && |s.surveyUuid| <= SURVEY_UUID_MAX_LEN
  }

  /**
    The invariant of the program's accounts: every record lives at the
    address derived from its own owner and id, no survey has paid more
    participants than its limit, every marker belongs to an existing survey,
    and each survey has exactly as many markers as it has paid participants.
   */
  ghost predicate Valid(st: State) {
    && (forall a | a in st.surveys :: WellFormedSurvey(a, st.surveys[a]))
    && (forall m | m in st.participations :: m.PartPda? && m.survey in st.surveys)
    && (forall a | a in st.surveys :: |Markers(st, a)| == st.surveys[a].participantsCount)
  }

  function Empty(): State {
    State(map[], map[], map[])
  }

  lemma EmptyValid()
    ensures Valid(Empty())
  {
  }

  /** A survey record, once created, keeps its owner, id, uuid, limit and reward forever. */
  ghost predicate ConfigKept(st: State, st': State) {
    forall a | a in st.surveys ::
      && a in st'.surveys
      && st'.surveys[a] == st.surveys[a].(controller := st'.surveys[a].controller,
                                          participantsCount := st'.surveys[a].participantsCount)
      && st.surveys[a].participantsCount <= st'.surveys[a].participantsCount
  }

  lemma InitSurveyKeepsValid(st: State, caller: Wallet, sa: Addr, fa: Addr, id: u64, uuid: Bytes,
                             controller: Addr, limit: u64, reward: u64)
    requires Valid(st)
    requires InitSurvey(st, caller, sa, fa, id, uuid, controller, limit, reward).Ok?
    ensures var st' := InitSurvey(st, caller, sa, fa, id, uuid, controller, limit, reward).value;
      Valid(st') && ConfigKept(st, st')
  {
    var st' := InitSurvey(st, caller, sa, fa, id, uuid, controller, limit, reward).value;
    forall m | m in st'.participations ensures m !in Markers(st', sa) { }
    assert Markers(st', sa) == {};
    forall a | a in st'.surveys && a != sa
      ensures |Markers(st', a)| == st'.surveys[a].participantsCount
    {
      assert Markers(st', a) == Markers(st, a);
    }
  }

  lemma PayoutKeepsValid(st: State, caller: Wallet, sa: Addr, fa: Addr, pa: Addr,
                         participant: Addr, owner: Addr, zkp: Bytes)
    requires Valid(st)
    requires Payout(st, caller, sa, fa, pa, participant, owner, zkp).Ok?
    ensures var st' := Payout(st, caller, sa, fa, pa, participant, owner, zkp).value;
      Valid(st') && ConfigKept(st, st')
  {
    var st' := Payout(st, caller, sa, fa, pa, participant, owner, zkp).value;
    assert Markers(st', sa) == Markers(st, sa) + {pa};
    assert pa !in Markers(st, sa);
    forall a | a in st'.surveys && a != sa
      ensures |Markers(st', a)| == st'.surveys[a].participantsCount
    {
      assert Markers(st', a) == Markers(st, a);
    }
  }

  lemma ExecuteKeepsValid(st: State, ix: Instruction)
    requires Valid(st)
    ensures Valid(Apply(Execute, st, ix)) && ConfigKept(st, Apply(Execute, st, ix))
  {
    if Execute(st, ix).Ok? {
      match ix
      case InitSurveyIx(caller, sa, fa, id, uuid, controller, limit, reward) =>
        InitSurveyKeepsValid(st, caller, sa, fa, id, uuid, controller, limit, reward);
      case PayoutIx(caller, sa, fa, pa, participant, owner, zkp) =>
        PayoutKeepsValid(st, caller, sa, fa, pa, participant, owner, zkp);
      case ChangeControllerIx(caller, sa, owner, controller) =>
        var st' := Apply(Execute, st, ix);
        forall a | a in st'.surveys ensures Markers(st', a) == Markers(st, a) { }
      case FundSurveyIx(_, _, _, _, _, _) =>
      case EmergencyWithdrawIx(_, _, _, _) =>
    }
  }

  /**
    The invariant holds after any sequence of transactions from a valid
    ledger, and every survey that existed at the start still exists with the
    same configuration and a count that has not gone down.
   */
  lemma RunKeepsValid(st: State, ixs: seq<Instruction>)
    requires Valid(st)
    ensures Valid(Run(Execute, st, ixs)) && ConfigKept(st, Run(Execute, st, ixs))
  {
    var inv := (s: State) => Valid(s) && ConfigKept(st, s);
    forall s, ix | inv(s) ensures inv(Apply(Execute, s, ix)) {
      ExecuteKeepsValid(s, ix);
    }
    RunKeeps(Execute, inv, st, ixs);
  }

  /** Hence no survey ever counts more participants than its limit. */
  lemma CountWithinLimit(st: State, ixs: seq<Instruction>, a: Addr)
    requires Valid(st)
    requires a in Run(Execute, st, ixs).surveys
    ensures Run(Execute, st, ixs).surveys[a].participantsCount <= Run(Execute, st, ixs).surveys[a].participantsLimit
  {
    RunKeepsValid(st, ixs);
  }

  /** Markers are never removed. */
  lemma ExecuteKeepsMarkers(st: State, ix: Instruction)
    ensures st.participations.Keys <= Apply(Execute, st, ix).participations.Keys
  {
  }

  /**
    The first of the two facts behind "paid at most once": a marker created by
    a payout did not exist before and does exist afterwards.
   */
  lemma CreatedIsFresh(st: State, ix: Instruction)
    ensures forall m | m in Created(st, ix) ::
      m !in st.participations && m in Apply(Execute, st, ix).participations
  {
  }

  /**
    Over any sequence of transactions, the payouts that succeed create
    pairwise distinct markers, none of which existed at the start: each
    (survey, participant) pair is paid at most once, and never again once it
    has been paid.
   */
  lemma {:induction false} PaidAtMostOnce(st: State, ixs: seq<Instruction>)
    ensures forall i, j | 0 <= i < j < |Paid(st, ixs)| :: Paid(st, ixs)[i] != Paid(st, ixs)[j]
    ensures forall m | m in Paid(st, ixs) :: m !in st.participations && m in Run(Execute, st, ixs).participations
    decreases |ixs|
  {
    if ixs != [] {
      var st1 := Apply(Execute, st, ixs[0]);
      var head := Created(st, ixs[0]);
      var tail := Paid(st1, ixs[1..]);
      CreatedIsFresh(st, ixs[0]);
      ExecuteKeepsMarkers(st, ixs[0]);
      PaidAtMostOnce(st1, ixs[1..]);
      RunKeepsMarkers(st1, ixs[1..]);
      assert Paid(st, ixs) == head + tail;
      forall i, j | 0 <= i < j < |head + tail| ensures (head + tail)[i] != (head + tail)[j] {
        if i < |head| {
          assert (head + tail)[j] == tail[j - |head|];
        }
      }
    }
  }

  lemma {:induction false} RunKeepsMarkers(st: State, ixs: seq<Instruction>)
    ensures st.participations.Keys <= Run(Execute, st, ixs).participations.Keys
    decreases |ixs|
  {
    if ixs != [] {
      ExecuteKeepsMarkers(st, ixs[0]);
      RunKeepsMarkers(Apply(Execute, st, ixs[0]), ixs[1..]);
    }
  }

  lemma CountForAppend(xs: seq<Addr>, ys: seq<Addr>, a: Addr)
    ensures CountFor(xs + ys, a) == CountFor(xs, a) + CountFor(ys, a)
    decreases |xs|
  {
    if xs == [] {
      assert xs + ys == ys;
    } else {
      assert (xs + ys)[1..] == xs[1..] + ys;
      CountForAppend(xs[1..], ys, a);
    }
  }

  /** One transaction adds to a survey's count exactly the markers it creates for that survey. */
  lemma ExecuteCountsPayouts(st: State, ix: Instruction, a: Addr)
    requires Valid(st)
    ensures Participants(Apply(Execute, st, ix), a) == Participants(st, a) + CountFor(Created(st, ix), a)
  {
    if Execute(st, ix).Ok? && ix.PayoutIx? {
      assert Created(st, ix) == [ix.participation];
      assert CountFor([ix.participation], a) == (if ix.surveyAccount == a then 1 else 0);
    }
  }

  /**
    Over any sequence of transactions, the number of successful payouts for a
    survey is exactly the growth of its `participants_count`; with the
    invariant this bounds them by the survey's limit.
   */
  lemma {:induction false} PaidMatchesCount(st: State, ixs: seq<Instruction>, a: Addr)
    requires Valid(st)
    ensures Participants(Run(Execute, st, ixs), a) == Participants(st, a) + CountFor(Paid(st, ixs), a)
    ensures a in Run(Execute, st, ixs).surveys ==>
      CountFor(Paid(st, ixs), a) <= Run(Execute, st, ixs).surveys[a].participantsLimit
    decreases |ixs|
  {
    if ixs != [] {
      var st1 := Apply(Execute, st, ixs[0]);
      ExecuteCountsPayouts(st, ixs[0], a);
      ExecuteKeepsValid(st, ixs[0]);
      PaidMatchesCount(st1, ixs[1..], a);
      CountForAppend(Created(st, ixs[0]), Paid(st1, ixs[1..]), a);
    }
    RunKeepsValid(st, ixs);
  }

  /** No instruction creates or destroys lamports, so neither does any sequence of them. */
  lemma {:induction false} RunConservesLamports(st: State, ixs: seq<Instruction>)
    ensures Sum(Run(Execute, st, ixs).lamports) == Sum(st.lamports)
    decreases |ixs|
  {
    if ixs != [] {
      RunConservesLamports(Apply(Execute, st, ixs[0]), ixs[1..]);
    }
  }

  /**
    With the invariant, passing the `seeds` constraint on the survey account
    already makes `owner` the survey's owner, so the handler's own
    `NotTheOwner` check in `emergency_withdraw` never fires.
   */
  lemma EmergencyWithdrawNeverNotTheOwner(st: State, caller: Wallet, sa: Addr, fa: Addr, owner: Addr)
    requires Valid(st)
    ensures EmergencyWithdraw(st, caller, sa, fa, owner) != Err(NotTheOwner)
  {
  }

  /** With the invariant, only the survey's owner can fund it: the seeds bind the caller. */
  lemma OnlyOwnerFunds(st: State, caller: Wallet, sa: Addr, fa: Addr, controller: Addr, amount: u64, fee: u64)
    requires Valid(st)
    requires FundSurvey(st, caller, sa, fa, controller, amount, fee).Ok?
    ensures caller == st.surveys[sa].owner
  {
  }

  /**
    Rotating the controller takes effect at once: the previous controller's
    payouts and emergency withdrawals are rejected with error 6000, while the
    new controller can pay a fresh participant of a survey that is under its
    limit and funded.
   */
  lemma ChangeControllerRevokesOld(
    st: State, oldController: Wallet, newController: Wallet, sa: Addr, owner: Addr,
    fa: Addr, pa: Addr, participant: Addr, zkp: Bytes)
    requires ChangeController(st, oldController, sa, owner, newController).Ok?
    requires oldController != newController
    requires PayoutAccountsOk(st, sa, fa, pa, participant, owner) && pa !in st.participations
    ensures var st' := ChangeController(st, oldController, sa, owner, newController).value;
      && Payout(st', oldController, sa, fa, pa, participant, owner, zkp) == Err(WrongController)
      && EmergencyWithdraw(st', oldController, sa, fa, owner) == Err(WrongController)
      && WrongController.CustomNumber() == 6000
      && var s := st'.surveys[sa];
      ((s.participantsCount < s.participantsLimit && s.rewardAmount <= Balance(st'.lamports, fa)
        && |zkp| <= ZKP_MAX_LEN)
       ==> Payout(st', newController, sa, fa, pa, participant, owner, zkp).Ok?)
  {
  }

  /** The markers of `ps` in the survey at `sa`, in the same order. */
  function MarkersOf(sa: Addr, ps: seq<Addr>): (ms: seq<Addr>)
    ensures |ms| == |ps|
    ensures forall i | 0 <= i < |ps| :: ms[i] == PartPda(sa, ps[i])
    decreases |ps|
  {
    if ps == [] then [] else [PartPda(sa, ps[0])] + MarkersOf(sa, ps[1..])
  }

  /** One payout per entry of `ps`, each to that participant's marker with an empty proof. */
  function PayoutsTo(caller: Wallet, sa: Addr, owner: Addr, ps: seq<Addr>): seq<Instruction>
    decreases |ps|
  {
    if ps == [] then []
    else [PayoutIx(caller, sa, VaultPda(sa, owner), PartPda(sa, ps[0]), ps[0], owner, [])]
         + PayoutsTo(caller, sa, owner, ps[1..])
  }

  /** A single payout by the controller to a fresh participant, with room left and a funded vault. */
  lemma FreshPayoutStep(st: State, caller: Wallet, sa: Addr, owner: Addr, p: Addr)
    requires SurveyAt(st, sa, owner)
    requires caller == st.surveys[sa].controller
    requires PartPda(sa, p) !in st.participations && p != VaultPda(sa, owner)
    requires st.surveys[sa].participantsCount < st.surveys[sa].participantsLimit
    requires st.surveys[sa].rewardAmount <= Balance(st.lamports, VaultPda(sa, owner))
    ensures var ix := PayoutIx(caller, sa, VaultPda(sa, owner), PartPda(sa, p), p, owner, []);
      var st1 := Apply(Execute, st, ix);
      var s := st.surveys[sa];
      && Created(st, ix) == [PartPda(sa, p)]
      && SurveyAt(st1, sa, owner)
      && st1.surveys[sa] == s.(participantsCount := s.participantsCount + 1)
      && st1.participations.Keys == st.participations.Keys + {PartPda(sa, p)}
      && Balance(st1.lamports, VaultPda(sa, owner)) == Balance(st.lamports, VaultPda(sa, owner)) - s.rewardAmount
      && Balance(st1.lamports, p) == Balance(st.lamports, p) + s.rewardAmount
      && (forall a | a != p && a != VaultPda(sa, owner) :: Balance(st1.lamports, a) == Balance(st.lamports, a))
  {
    var ix := PayoutIx(caller, sa, VaultPda(sa, owner), PartPda(sa, p), p, owner, []);
    var st1 := Apply(Execute, st, ix);
    assert Execute(st, ix).Ok?;
    assert Moved(st.lamports, st1.lamports, VaultPda(sa, owner), p, st.surveys[sa].rewardAmount);
  }

  /** `n` rewards of `r` lamports each, added up one at a time. */
  function Rewards(n: nat, r: nat): nat {
    if n == 0 then 0 else r + Rewards(n - 1, r)
  }

  lemma {:induction false} RewardsIsProduct(n: nat, r: nat)
    ensures Rewards(n, r) == n * r
  {
    if n > 0 {
      RewardsIsProduct(n - 1, r);
      assert n * r == (n - 1) * r + r;
    }
  }

  /** Running `PayoutsTo` is the first payout followed by the rest. */
  lemma PayoutsToUnfold(st: State, caller: Wallet, sa: Addr, owner: Addr, ps: seq<Addr>)
    requires ps != []
    ensures var ix := PayoutIx(caller, sa, VaultPda(sa, owner), PartPda(sa, ps[0]), ps[0], owner, []);
      var st1 := Apply(Execute, st, ix);
      && Run(Execute, st, PayoutsTo(caller, sa, owner, ps)) == Run(Execute, st1, PayoutsTo(caller, sa, owner, ps[1..]))
      && Paid(st, PayoutsTo(caller, sa, owner, ps)) == Created(st, ix) + Paid(st1, PayoutsTo(caller, sa, owner, ps[1..]))
  {
    var ixs := PayoutsTo(caller, sa, owner, ps);
    assert ixs[1..] == PayoutsTo(caller, sa, owner, ps[1..]);
  }

  /** The preconditions of a run of fresh payouts, shared by the two lemmas below. */
  ghost predicate FreshPayoutsOk(st: State, caller: Wallet, sa: Addr, owner: Addr, ps: seq<Addr>) {
    && SurveyAt(st, sa, owner)
    && caller == st.surveys[sa].controller
    && (forall i, j | 0 <= i < j < |ps| :: ps[i] != ps[j])
    && (forall i | 0 <= i < |ps| :: PartPda(sa, ps[i]) !in st.participations && ps[i] != VaultPda(sa, owner))
    && st.surveys[sa].participantsCount + |ps| <= st.surveys[sa].participantsLimit
    && Rewards(|ps|, st.surveys[sa].rewardAmount) <= Balance(st.lamports, VaultPda(sa, owner))
  }

  /**
    The first payout of a run of fresh payouts: it succeeds with the effects
    of `FreshPayoutStep`, and the rest of the run, from the state `st1` it
    leaves, is again a run of fresh payouts.
   */
  lemma FreshPayoutsTail(st: State, caller: Wallet, sa: Addr, owner: Addr, ps: seq<Addr>) returns (st1: State)
    requires FreshPayoutsOk(st, caller, sa, owner, ps) && ps != []
    ensures var s := st.surveys[sa];
      && FreshPayoutsOk(st1, caller, sa, owner, ps[1..])
      && Run(Execute, st, PayoutsTo(caller, sa, owner, ps)) == Run(Execute, st1, PayoutsTo(caller, sa, owner, ps[1..]))
      && Paid(st, PayoutsTo(caller, sa, owner, ps)) == [PartPda(sa, ps[0])] + Paid(st1, PayoutsTo(caller, sa, owner, ps[1..]))
      && st1.surveys[sa] == s.(participantsCount := s.participantsCount + 1)
      && st1.participations.Keys == st.participations.Keys + {PartPda(sa, ps[0])}
      && Balance(st1.lamports, VaultPda(sa, owner)) == Balance(st.lamports, VaultPda(sa, owner)) - s.rewardAmount
      && Balance(st1.lamports, ps[0]) == Balance(st.lamports, ps[0]) + s.rewardAmount
      && (forall a | a != ps[0] && a != VaultPda(sa, owner) :: Balance(st1.lamports, a) == Balance(st.lamports, a))
      && ps[0] !in ps[1..]
      && (forall a | a in ps[1..] :: a in ps)
  {
    var p := ps[0];
    var rest := ps[1..];
    PayoutsToUnfold(st, caller, sa, owner, ps);
    FreshPayoutStep(st, caller, sa, owner, p);
    st1 := Apply(Execute, st, PayoutIx(caller, sa, VaultPda(sa, owner), PartPda(sa, p), p, owner, []));
    assert forall i | 0 <= i < |rest| :: rest[i] == ps[i + 1] && rest[i] != p;
    forall a | a in rest ensures a in ps {
      var i :| 0 <= i < |rest| && rest[i] == a;
      assert ps[i + 1] == a;
    }
  }

  /**
    The controller can pay distinct, not yet paid participants one after
    another as long as the limit leaves room for all of them and the vault
    holds a reward for each: every payout goes through and creates that
    participant's marker, no other marker appears, and the count grows by the
    number of participants.
   */
  lemma {:induction false} FreshPayoutsSucceed(st: State, caller: Wallet, sa: Addr, owner: Addr, ps: seq<Addr>)
    requires FreshPayoutsOk(st, caller, sa, owner, ps)
    ensures var st' := Run(Execute, st, PayoutsTo(caller, sa, owner, ps));
      var s := st.surveys[sa];
      && Paid(st, PayoutsTo(caller, sa, owner, ps)) == MarkersOf(sa, ps)
      && SurveyAt(st', sa, owner)
      && st'.surveys[sa] == s.(participantsCount := s.participantsCount + |ps|)
      && (forall m | m in st'.participations && m !in st.participations :: m.PartPda? && m.survey == sa && m.participant in ps)
    decreases |ps|
  {
    if ps != [] {
      var st1 := FreshPayoutsTail(st, caller, sa, owner, ps);
      FreshPayoutsSucceed(st1, caller, sa, owner, ps[1..]);
    }
  }

  /**
    The lamports of the same run: each participant gains exactly the reward,
    the vault loses one reward per participant, and nobody else's balance
    moves.
   */
  lemma {:induction false} FreshPayoutsPay(st: State, caller: Wallet, sa: Addr, owner: Addr, ps: seq<Addr>)
    requires FreshPayoutsOk(st, caller, sa, owner, ps)
    ensures var st' := Run(Execute, st, PayoutsTo(caller, sa, owner, ps));
      var reward := st.surveys[sa].rewardAmount;
      && Balance(st'.lamports, VaultPda(sa, owner)) == Balance(st.lamports, VaultPda(sa, owner)) - Rewards(|ps|, reward)
      && (forall i | 0 <= i < |ps| :: Balance(st'.lamports, ps[i]) == Balance(st.lamports, ps[i]) + reward)
      && (forall a | a !in ps && a != VaultPda(sa, owner) :: Balance(st'.lamports, a) == Balance(st.lamports, a))
    decreases |ps|
  {
    if ps != [] {
      var st1 := FreshPayoutsTail(st, caller, sa, owner, ps);
      FreshPayoutsPay(st1, caller, sa, owner, ps[1..]);
      var st' := Run(Execute, st1, PayoutsTo(caller, sa, owner, ps[1..]));
      var reward := st.surveys[sa].rewardAmount;
      forall i | 0 <= i < |ps|
        ensures Balance(st'.lamports, ps[i]) == Balance(st.lamports, ps[i]) + reward
      {
        if i > 0 {
          assert ps[1..][i - 1] == ps[i];
        }
      }
    }
  }

  /**
    The limit scenario of the program's test suite: a survey with a limit of
    10 and a reward of 1 SOL rejects a 5 SOL funding with `InsufficientFunds`,
    accepts 10 SOL (each time with a fee of 100 lamports for the
    controller), pays ten distinct participants 1 SOL each, which empties
    the vault, and then rejects an eleventh participant with
    `ParticipantsLimitReached`.
   */
  lemma LimitScenario(st: State, owner: Wallet, controller: Wallet, ps: seq<Addr>, late: Addr)
    requires Valid(st)
    requires Balance(st.lamports, owner) >= 10_000_000_100
    requires SurveyPda(owner, 3) !in st.surveys
    requires Balance(st.lamports, VaultPda(SurveyPda(owner, 3), owner)) == 0
    requires |ps| == 10 && forall i, j | 0 <= i < j < |ps| :: ps[i] != ps[j]
    requires forall i | 0 <= i < |ps| :: ps[i] != VaultPda(SurveyPda(owner, 3), owner)
    requires late !in ps
    ensures
      var sa := SurveyPda(owner, 3);
      var vault := VaultPda(sa, owner);
      var st1 := InitSurvey(st, owner, sa, vault, 3, [], controller, 10, 1_000_000_000).value;
      && FundSurvey(st1, owner, sa, vault, controller, 5_000_000_000, 100) == Err(InsufficientFunds)
      && FundSurvey(st1, owner, sa, vault, controller, 10_000_000_000, 100).Ok?
      && var st2 := FundSurvey(st1, owner, sa, vault, controller, 10_000_000_000, 100).value;
      && var st3 := Run(Execute, st2, PayoutsTo(controller, sa, owner, ps));
      && (forall i | 0 <= i < |ps| :: Balance(st3.lamports, ps[i]) == Balance(st2.lamports, ps[i]) + 1_000_000_000)
      && Balance(st3.lamports, vault) == 0
      && sa in st3.surveys && st3.surveys[sa].participantsCount == 10
      && Payout(st3, controller, sa, vault, PartPda(sa, late), late, owner, []) == Err(ParticipantsLimitReached)
  {
    var sa := SurveyPda(owner, 3);
    var vault := VaultPda(sa, owner);
    var st1 := InitSurvey(st, owner, sa, vault, 3, [], controller, 10, 1_000_000_000).value;
    var st2 := FundSurvey(st1, owner, sa, vault, controller, 10_000_000_000, 100).value;
    assert Balance(st2.lamports, vault) == 10_000_000_000;
    forall i | 0 <= i < |ps| ensures PartPda(sa, ps[i]) !in st2.participations {
      assert PartPda(sa, ps[i]) !in st.participations;
    }
    RewardsIsProduct(10, 1_000_000_000);
    FreshPayoutsSucceed(st2, controller, sa, owner, ps);
    FreshPayoutsPay(st2, controller, sa, owner, ps);
    assert PartPda(sa, late) !in st2.participations;
  }
}
