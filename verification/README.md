# Survey reward escrow — a Dafny model

QSTN runs paid surveys on Solana. A survey owner locks SOL in a vault that
only the program can sign for. A controller then pays each participant a
fixed reward from that vault, once per participant and up to a participant
limit. Three Anchor programs implement this, and each is modelled here:

- `qstn-survey-native` (`native_survey.dfy`, `native_survey_proofs.dfy`) is
  the current escrow. Each survey has its own vault at
  `["vault", survey, owner]`, and each participant of a survey gets a
  participation marker at `["part", survey, participant]`. The marker makes a
  second payout to the same participant fail. A `participants_count` is
  checked against `participants_limit`.
- `qstn_surveys_v2` (`survey_v2.dfy`) is the earlier variant:
  - one vault per owner, at `["vault", owner]`;
  - a separate registration step, at `[participant]`;
  - payout amounts chosen by the controller, with no count, limit or
    deduplication.
- `qstn_surveys` (`counters.dfy`) is a pair of `u8` counters. It keeps a
  survey counter per user and a reward counter per (user, admin), and
  `update_reward` brings the reward counter up to the survey counter.

`ledger.dfy` models what the three programs rely on:

- addresses derived from seeds, treated as injective, with derived addresses
  never being signers;
- Rust's `u8` and `u64`;
- the errors a transaction can end with, including Anchor's custom error
  numbers 6000 and up;
- the system program's lamport `transfer`, which conserves the lamport total.

Every instruction is a pure function `State -> Result<State>`. Anchor's
account checks run in the order Anchor runs them:

1. `Account<T>` deserialization;
2. `init` accounts: seeds, then "already in use";
3. the other constraints, in field order;
4. the handler body;
5. exit serialization, which fails when a string exceeds its allocated space.

An `Err` discards the whole transaction. `Ledger.Run` replays a sequence of
transactions from a starting state, so properties can be stated over any
history.

Integer overflow is an abort (`ArithmeticOverflow`). This matches a release
build with `overflow-checks = true`, which is Anchor's workspace default.

Where the code and the programs' own descriptions differ, the model follows
the code:

- Native `change_controller` is gated on the current controller, not the
  owner. The `ChangeController` accounts doc calls `owner` the signer, but
  the handler compares the caller with `controller`.
- Native `fund_survey`'s second argument is a fee transferred to the
  controller account.
- `init_survey` accepts a zero limit or a zero reward.
- `payout` does not compare the vault balance with the reward itself. An
  under-funded vault shows up as the system transfer failing.
- Native `emergency_withdraw` is documented as paying the controller's
  account, but the code pays the whole vault to `owner`.
- Native `payout` is documented as taking an `amount`, but it takes
  `zkp_claim`; the amount paid is always the survey's `reward_amount`.

## Model

| member | source | states |
|---|---|---|
| Ledger.Error.CustomNumber | CONTRACTS/qstn-survey-native/programs/qstn-survey/src/lib.rs:439-449 | The custom errors are numbered in declaration order: `WrongController` 6000, `NotTheOwner` 6001, `InsufficientFunds` 6002, `ParticipantsLimitReached` 6003. 6000 is exactly `WrongController`. |
| Ledger.Transfer | CONTRACTS/qstn-survey-native/programs/qstn-survey/src/lib.rs:138-152 | The system transfer fails (insufficient lamports) exactly when the source holds less than the amount. Otherwise it moves exactly that amount from source to destination, and the lamport total is unchanged. |
| Ledger.SumUpdate | CONTRACTS/qstn-survey-native/programs/qstn-survey/src/lib.rs:74-96 | Overwriting one balance changes the lamport total by exactly the difference; this gives conservation for every transfer. |
| Ledger.RunKeeps | CONTRACTS/qstn-survey-native/programs/qstn-survey/src/lib.rs:23-229 | A property that every single transaction preserves, failed ones included, holds after any sequence of transactions. |
| NativeSurvey.InitSurvey | CONTRACTS/qstn-survey-native/programs/qstn-survey/src/lib.rs:23-47 | Succeeds iff the survey account is `["survey", caller, id]`, not yet created, the vault is `["vault", survey, caller]` and the uuid fits its 64 bytes. A second init at the same address fails as already in use. The new record holds the given id, uuid, controller, limit and reward, the caller as owner and a count of 0; nothing else changes. |
| NativeSurvey.FundSurvey | CONTRACTS/qstn-survey-native/programs/qstn-survey/src/lib.rs:58-107 | Funding is refused when `limit * reward` overflows a u64, when the amount is below `limit * reward` (`InsufficientFunds`), and when the controller account is not the stored controller (`WrongController`). Otherwise it succeeds iff the caller can pay amount plus fee: the vault gains `amount`, the controller gains `fee`, the caller loses both, and the total is conserved. |
| NativeSurvey.Payout | CONTRACTS/qstn-survey-native/programs/qstn-survey/src/lib.rs:117-157 | An existing marker for (survey, participant) makes the payout fail as already in use, before any other check. Otherwise a caller that is not the controller gets `WrongController`, and a full survey gets `ParticipantsLimitReached`. Below the limit, the payout succeeds iff the vault covers the reward and the claim fits 128 bytes. On success the participant gains exactly the reward from the vault, the count grows by one, the marker is created and every other field is kept. |
| NativeSurvey.ChangeController | CONTRACTS/qstn-survey-native/programs/qstn-survey/src/lib.rs:167-177 | For a survey at its derived address, rotation succeeds iff the signer is the current controller (otherwise `WrongController`); only the controller field changes. |
| NativeSurvey.EmergencyWithdraw | CONTRACTS/qstn-survey-native/programs/qstn-survey/src/lib.rs:186-229 | Only the controller withdraws, and the owner account must match the stored owner. The whole vault balance goes to the owner, leaving the vault at 0 with the lamport total conserved and the records unchanged. |
| NativeSurveyProofs.InitSurveyKeepsValid | CONTRACTS/qstn-survey-native/programs/qstn-survey/src/lib.rs:241-267 | A successful init keeps the account invariant: records at their derived address, count within limit, markers of existing surveys, one marker per counted participant. The configuration of every existing survey is kept. |
| NativeSurveyProofs.PayoutKeepsValid | CONTRACTS/qstn-survey-native/programs/qstn-survey/src/lib.rs:316-357 | A successful payout keeps the invariant: the new marker belongs to the paid survey, and that survey's marker count and participant count both grow by one. |
| NativeSurveyProofs.ExecuteKeepsValid | CONTRACTS/qstn-survey-native/programs/qstn-survey/src/lib.rs:23-229 | Every instruction keeps the invariant. No instruction changes a survey's owner, id, uuid, limit or reward once created. |
| NativeSurveyProofs.RunKeepsValid | CONTRACTS/qstn-survey-native/programs/qstn-survey/src/lib.rs:23-229 | After any sequence of transactions from a valid state, the invariant holds. Every survey that existed at the start still exists with its owner, id, uuid, limit and reward, and a count that has not gone down. |
| NativeSurveyProofs.CountWithinLimit | CONTRACTS/qstn-survey-native/programs/qstn-survey/src/lib.rs:131-133 | After any history, no survey's participant count exceeds its limit. |
| NativeSurveyProofs.ExecuteKeepsMarkers | CONTRACTS/qstn-survey-native/programs/qstn-survey/src/lib.rs:337-348 | No instruction removes a participation marker. |
| NativeSurveyProofs.CreatedIsFresh | CONTRACTS/qstn-survey-native/programs/qstn-survey/src/lib.rs:337-348 | A marker created by a successful payout did not exist before and exists afterwards. |
| NativeSurveyProofs.PaidAtMostOnce | CONTRACTS/qstn-survey-native/programs/qstn-survey/src/lib.rs:337-348 | Across any sequence of transactions, the markers of successful payouts are pairwise distinct, so a (survey, participant) pair is paid at most once. Each such marker was absent at the start and present at the end. |
| NativeSurveyProofs.RunKeepsMarkers | CONTRACTS/qstn-survey-native/programs/qstn-survey/src/lib.rs:337-348 | Markers survive any sequence of transactions. |
| NativeSurveyProofs.CountForAppend | CONTRACTS/qstn-survey-native/programs/qstn-survey/src/lib.rs:154 | Counting one survey's markers distributes over concatenation of payout histories. |
| NativeSurveyProofs.ExecuteCountsPayouts | CONTRACTS/qstn-survey-native/programs/qstn-survey/src/lib.rs:154 | One transaction raises a survey's participant count by exactly the number of markers it creates for that survey. |
| NativeSurveyProofs.PaidMatchesCount | CONTRACTS/qstn-survey-native/programs/qstn-survey/src/lib.rs:131-154 | Over any history, a survey's count grows by exactly the number of successful payouts for it, and that number never exceeds the survey's limit. |
| NativeSurveyProofs.RunConservesLamports | CONTRACTS/qstn-survey-native/programs/qstn-survey/src/lib.rs:74-96 | No sequence of transactions creates or destroys lamports. |
| NativeSurveyProofs.EmergencyWithdrawNeverNotTheOwner | CONTRACTS/qstn-survey-native/programs/qstn-survey/src/lib.rs:197-199 | With the invariant, the seeds check already binds the owner account, so the `NotTheOwner` branch of `emergency_withdraw` cannot be reached. |
| NativeSurveyProofs.OnlyOwnerFunds | CONTRACTS/qstn-survey-native/programs/qstn-survey/src/lib.rs:277-288 | With the invariant, a successful funding was signed by the survey's owner. |
| NativeSurveyProofs.ChangeControllerRevokesOld | CONTRACTS/qstn-survey-native/tests/qstn-survey.ts:204-331 | After a rotation, the old controller's payout fails with error 6000 and so does its emergency withdrawal. The new controller's payout succeeds when the survey has room, the vault covers the reward and the claim fits. |
| NativeSurveyProofs.FreshPayoutStep | CONTRACTS/qstn-survey-native/programs/qstn-survey/src/lib.rs:117-157 | One payout by the controller to a fresh participant, with room and funds, creates exactly that participant's marker and counts one more participant. The reward moves from the vault to the participant and no other balance changes. |
| NativeSurveyProofs.FreshPayoutsSucceed | CONTRACTS/qstn-survey-native/programs/qstn-survey/src/lib.rs:117-157 | Payouts to n distinct fresh participants all succeed when the limit has room for n and the vault holds n rewards. Their markers are created in order, no other marker appears, and the count grows by n. |
| NativeSurveyProofs.FreshPayoutsPay | CONTRACTS/qstn-survey-native/programs/qstn-survey/src/lib.rs:135-152 | In the same run, each participant gains exactly the reward and the vault loses n rewards; no other balance moves. |
| NativeSurveyProofs.RewardsIsProduct | CONTRACTS/qstn-survey-native/programs/qstn-survey/src/lib.rs:60 | n rewards added one at a time total `n * reward`, the funding minimum. |
| NativeSurveyProofs.LimitScenario | CONTRACTS/qstn-survey-native/tests/qstn-survey.ts:376-523 | With a limit of 10 and a 1 SOL reward: funding 5 SOL fails with `InsufficientFunds` and funding 10 SOL succeeds. Ten distinct participants are then paid 1 SOL each, emptying the vault and bringing the count to 10. An eleventh participant is refused with `ParticipantsLimitReached`. |
| SurveyV2.InitSurvey | CONTRACTS/qstn_surveys_v2/programs/qstn-survey/src/lib.rs:22-30 | Succeeds iff the survey account is `["survey", caller, id]` and not yet created, and the vault is `["vault", caller]`. A second init fails as already in use. The record holds the id, the caller as owner and the given controller. |
| SurveyV2.FundSurvey | CONTRACTS/qstn_surveys_v2/programs/qstn-survey/src/lib.rs:40-60 | For the owner's survey and the owner's vault, funding has no minimum and succeeds iff the caller holds the amount. The amount moves to the vault, the total is conserved and the records are unchanged. |
| SurveyV2.RegisterParticipant | CONTRACTS/qstn_surveys_v2/programs/qstn-survey/src/lib.rs:70-82 | An existing registration at `[participant]` fails as already in use, before any other check. Otherwise only the controller registers (`WrongController`) and the claim must fit 128 bytes. Success adds exactly that registration. |
| SurveyV2.Payout | CONTRACTS/qstn_surveys_v2/programs/qstn-survey/src/lib.rs:92-122 | Payout requires an existing registration; a caller that is not the controller gets `WrongController`. Otherwise it succeeds iff the vault covers the caller-chosen amount. It moves exactly that amount, records nothing and conserves the total. |
| SurveyV2.ChangeController | CONTRACTS/qstn_surveys_v2/programs/qstn-survey/src/lib.rs:132-135 | For a survey at its address derived from the signer, rotation fails with `NotTheOwner` iff the stored owner differs from the signer. On success only the controller field changes. |
| SurveyV2.ExecuteKeepsValid | CONTRACTS/qstn_surveys_v2/programs/qstn-survey/src/lib.rs:145-313 | Every instruction keeps records at their derived addresses with wallet owners and registrations at participant addresses. No survey's owner or id ever changes. |
| SurveyV2.RunKeepsValid | CONTRACTS/qstn_surveys_v2/programs/qstn-survey/src/lib.rs:22-135 | After any sequence of transactions from a valid state, the invariant holds. No survey changes owner or id, and the lamport total is unchanged. |
| SurveyV2.ChangeControllerOnlyByOwner | CONTRACTS/qstn_surveys_v2/programs/qstn-survey/src/lib.rs:298-313 | With the invariant, `has_one = owner` never fires because the seeds already bind the owner. Rotation succeeds iff the signer is the stored owner. |
| SurveyV2.VaultSharedByOwner | CONTRACTS/qstn_surveys_v2/programs/qstn-survey/src/lib.rs:193-201 | Two successful fundings of any two surveys of one owner go to the same vault, `["vault", owner]`. |
| SurveyV2.ExecuteKeepsRegistrations | CONTRACTS/qstn_surveys_v2/programs/qstn-survey/src/lib.rs:228-237 | No instruction removes a registration. |
| SurveyV2.RunKeepsRegistrations | CONTRACTS/qstn_surveys_v2/programs/qstn-survey/src/lib.rs:228-237 | Registrations survive any sequence of transactions. |
| SurveyV2.RegisteredOnceAcrossSurveys | CONTRACTS/qstn_surveys_v2/programs/qstn-survey/src/lib.rs:228-237 | Once a participant is registered through one survey, registering them again through any existing survey fails as already in use, after any sequence of later transactions. |
| SurveyV2.PayoutRepeatable | CONTRACTS/qstn_surveys_v2/programs/qstn-survey/src/lib.rs:92-122 | A successful payout can be repeated verbatim, succeeding iff the vault still covers the amount; nothing deduplicates payouts. |
| SurveyV2.ChangeControllerRevokesOld | CONTRACTS/qstn_surveys_v2/tests/qstn-survey.ts:115-205 | After the owner rotates the controller, the old controller's payouts fail with error 6000. The new controller's payouts succeed whenever the vault covers the amount. |
| Counters.CreateSurvey | CONTRACTS/qstn_surveys/programs/qstn_surveys/src/lib.rs:9-14 | Succeeds iff the account is `["survey", user]` and not yet created; a repeat fails as already in use. The new counter is 0 and nothing else changes. |
| Counters.IncrementSurvey | CONTRACTS/qstn_surveys/programs/qstn_surveys/src/lib.rs:16-20 | The user's own counter grows by exactly one, and at 255 the increment aborts on `u8` overflow. |
| Counters.CreateReward | CONTRACTS/qstn_surveys/programs/qstn_surveys/src/lib.rs:22-27 | Succeeds iff the account is `["reward", user, admin]` and not yet created; a repeat fails as already in use. The new counter is 0 and nothing else changes. |
| Counters.UpdateReward | CONTRACTS/qstn_surveys/programs/qstn_surveys/src/lib.rs:29-34 | With the right accounts, it succeeds iff the reward counter is not ahead of the survey counter; otherwise the `u8` subtraction aborts. On success the reward counter equals the survey counter, which is unchanged. |
| Counters.ExecuteKeepsValid | CONTRACTS/qstn_surveys/programs/qstn_surveys/src/lib.rs:9-34 | Every instruction keeps counters at their derived addresses and no reward counter ahead of its user's survey counter. Survey counters never decrease. |
| Counters.RunKeepsValid | CONTRACTS/qstn_surveys/programs/qstn_surveys/src/lib.rs:9-34 | After any sequence of transactions, the counter invariant holds and no survey counter has gone down. |
| Counters.UpdateRewardNeverUnderflows | CONTRACTS/qstn_surveys/programs/qstn_surveys/src/lib.rs:32 | With the invariant, `survey.count - reward.count` never underflows, so `update_reward` on the right accounts always succeeds. |
| Counters.UpdateRewardIdempotent | CONTRACTS/qstn_surveys/tests/qstn_surveys.ts:251-270 | A second `update_reward` right after a successful one leaves the state as it is. |

## Left out

- Rent and account storage are not modelled. Creating an account costs its payer the rent-exempt minimum for the account's space, and the payer's balance is not reduced in the model. On chain, an `init` fails when its payer cannot cover that rent. `NativeSurvey.InitSurvey`, `NativeSurvey.Payout` (the participation marker), `SurveyV2.InitSurvey`, `SurveyV2.RegisterParticipant`, `Counters.CreateSurvey` and `Counters.CreateReward` report success regardless. Transaction fees are not modelled either.
- The runtime's rent-state rule is not modelled. It applies to every writable account whose balance a transaction changes, debited accounts as well as credited ones. It rejects a transaction that leaves such an account with a non-zero balance below the rent-exempt minimum, unless the account was already below it before. On the credit side, a payout that gives a fresh participant a reward below the minimum fails on chain, and so does a fee that leaves a fresh controller below it. On the debit side, a payout that leaves dust in the vault fails, for example a vault of 1_000_000_001 lamports paying a 1 SOL reward. So does a funding that leaves the caller with dust, and so does a v2 payout whose caller-chosen amount leaves dust in the shared vault. `NativeSurvey.Payout`, `NativeSurvey.FundSurvey`, `NativeSurvey.EmergencyWithdraw`, `SurveyV2.FundSurvey`, `SurveyV2.Payout` and `NativeSurveyProofs.LimitScenario` report success in those cases.
- The `SystemAccount` owner check is not modelled. It covers the vaults of both escrows and the `owner` account of v2 `register_participant`, and each of these addresses is treated as owned by the system program. On chain the check fails when the address has been assigned to another program; `SurveyV2.RegisterParticipant` and the funding and payout functions still report success. For the vaults, which only this program can sign for, the check only changes which error is reported.
- Lamport credits are not bounded by `u64`. The total supply makes an overflow impossible.
- Bumps are assumed canonical and are not stored. This covers the counter program's stored `bump` and the bump search.
- `msg!` logging, the content of the zero-knowledge claim (stored as opaque bytes) and the meaning of `survey_uuid` are not modelled.
- Concurrency and transaction ordering across validators are not modelled; transactions apply one after another.
- Cross-program invocation mechanics and signer-seed checking inside `invoke_signed` are not modelled. They are abstracted by the derived vault being the only address that pays out.
- Address hashing is not modelled. Derivation is an injective constructor, so two different seed lists never collide.
- The counter program's SPL-token test steps and the wallet/frontend code are not modelled; they are outside the three programs.
- Anchor's check order is an assumption. For one account, `seeds` is taken to be checked before `has_one`; this only decides which of two errors is reported.
- NativeSurveyProofs.LimitScenario: it uses an empty uuid and an empty claim where the test uses short strings. Only their lengths matter to the program, and both fit.
- Ledger.Transfer: it does not model the system program's refusal of a transfer from an account that carries data. The vaults and wallets in these programs carry none.
- NativeSurvey.InitSurvey, NativeSurvey.Payout and SurveyV2.RegisterParticipant: instruction decoding is not modelled. String arguments (`survey_uuid`, `zkp_claim`) are byte sequences with no UTF-8 validity requirement. Borsh rejects a non-UTF-8 string while decoding the instruction, before any account check. These functions instead accept any byte sequence whose length fits.
