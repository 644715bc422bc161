/**
  The parts of the ledger runtime and of the Anchor framework that the three
  survey programs rely on: account addresses derived from seeds, the Rust
  integer widths they store, the errors a transaction can end with, and the
  system program's lamport transfer.

  Every instruction of the programs is modelled as a pure function from a
  state to `Result<State>`; an `Err` means the whole transaction is discarded,
  so the state the caller keeps is the one it started from.
 */
module Ledger {

  const U8_MAX: int := 0xFF
  const U64_MAX: int := 0xFFFF_FFFF_FFFF_FFFF

  /** Rust's `u8`: the survey and reward counters of the counter program. */
  type u8 = x: int | 0 <= x <= U8_MAX

  /** Rust's `u64`: survey ids, limits, reward amounts and instruction amounts. */
  type u64 = x: int | 0 <= x <= U64_MAX

  /** The bytes of a Rust `String` as Borsh writes them; UTF-8 validity is not checked. */
  type Bytes = seq<u8>

  /**
    An account address. `Key` is a wallet's public key; every other constructor
    is one program-derived address, named after its seed list. Distinct seed
    lists give distinct addresses (the derivation is treated as injective), and
    a derived address is never a wallet key, which is why it cannot sign a
    transaction itself.
   */
  datatype Addr =
      // a keypair's public key
    | Key(k: nat)
      // ["survey", owner, survey_id as 8 little-endian bytes]
    | SurveyPda(owner: Addr, surveyId: u64)
      // ["vault", survey, owner]: one vault per survey
    | VaultPda(survey: Addr, owner: Addr)
      // ["part", survey, participant]: one marker per (survey, participant)
    | PartPda(survey: Addr, participant: Addr)
      // ["vault", owner]: the earlier variant's vault, shared by all of an owner's surveys
    | OwnerVaultPda(owner: Addr)
      // [participant]: the earlier variant's registration, one per participant
    | ParticipantPda(participant: Addr)
      // ["survey", user]: the counter program's per-user survey counter
    | CounterPda(user: Addr)
      // ["reward", user, admin]: the counter program's per-(user, admin) reward counter
    | RewardPda(user: Addr, admin: Addr)

  /** A transaction signer. Only keypairs sign; derived addresses are off the curve. */
  type Wallet = a: Addr | a.Key? witness Key(0)

  /** The ways an instruction can fail. Any of them aborts the whole transaction. */
  datatype Error =
      // the programs' own `#[error_code]` enums, in declaration order
    | WrongController
    | NotTheOwner
    | InsufficientFunds
    | ParticipantsLimitReached
      // Anchor account validation
    | ConstraintSeeds          // a supplied address differs from its seed derivation
    | AccountNotInitialized    // an `Account<T>` that does not hold a record
    | AccountAlreadyInUse      // an `init` account that already holds a record
    | AccountDidNotSerialize   // a record no longer fits the space allocated for it
      // system program transfer: the source holds fewer lamports than requested
    | InsufficientLamports
      // a checked Rust integer operation overflowed (the program panics)
    | ArithmeticOverflow
  {
    predicate IsCustom() {
      WrongController? || NotTheOwner? || InsufficientFunds? || ParticipantsLimitReached?
    }

    /** The number Anchor reports for a custom error: 6000 plus its position in the enum. */
    function CustomNumber(): (n: nat)
      requires IsCustom()
      ensures 6000 <= n < 6004
      ensures n == 6000 <==> WrongController?
      ensures NotTheOwner? ==> n == 6001
      ensures InsufficientFunds? ==> n == 6002
      ensures ParticipantsLimitReached? ==> n == 6003
    {
      match this
      case WrongController => 6000
      case NotTheOwner => 6001
      case InsufficientFunds => 6002
      case ParticipantsLimitReached => 6003
    }
  }

  /** The outcome of an instruction; usable with `:-`. */
  datatype Result<+T> = Ok(value: T) | Err(error: Error) {
    predicate IsFailure() {
      Err?
    }

    function PropagateFailure<U>(): Result<U>
      requires Err?
    {
      Err(error)
    }

    function Extract(): T
      requires Ok?
    {
      value
    }
  }

  /** The state after one transaction: a failed transaction leaves every account as it was. */
  function Apply<S, I>(step: (S, I) -> Result<S>, st: S, ix: I): S {
    match step(st, ix)
    case Ok(st') => st'
    case Err(_) => st
  }

  /** The state after submitting the transactions `ixs` one after another. */
  function Run<S, I>(step: (S, I) -> Result<S>, st: S, ixs: seq<I>): S
    decreases |ixs|
  {
    if ixs == [] then st else Run(step, Apply(step, st, ixs[0]), ixs[1..])
  }

  /**
    A property of states that every single transaction keeps holds after any
    sequence of transactions; the programs' invariants over whole histories
    all follow from this.
   */
  lemma {:induction false} RunKeeps<S, I>(step: (S, I) -> Result<S>, inv: S -> bool, st: S, ixs: seq<I>)
    requires forall s, ix :: inv(s) ==> inv(Apply(step, s, ix))
    requires inv(st)
    ensures inv(Run(step, st, ixs))
    decreases |ixs|
  {
    if ixs != [] {
      RunKeeps(step, inv, Apply(step, st, ixs[0]), ixs[1..]);
    }
  }

  /** Rust `a * b` on two `u64` values with overflow checks enabled. */
  function CheckedMulU64(a: u64, b: u64): Result<u64> {
    if a * b <= U64_MAX then Ok(a * b) else Err(ArithmeticOverflow)
  }

  /** Rust `a + b` on two `u8` values with overflow checks enabled. */
  function CheckedAddU8(a: u8, b: u8): Result<u8> {
    if a + b <= U8_MAX then Ok(a + b) else Err(ArithmeticOverflow)
  }

  /** Rust `a - b` on two `u8` values with overflow checks enabled. */
  function CheckedSubU8(a: u8, b: u8): Result<u8> {
    if b <= a then Ok(a - b) else Err(ArithmeticOverflow)
  }

  /** Lamport balances; an address that is absent holds nothing. */
  type Lamports = map<Addr, nat>

  function Balance(m: Lamports, a: Addr): nat {
    if a in m then m[a] else 0
  }

  /** The total number of lamports held across all addresses. */
  ghost function Sum(m: Lamports): nat
    decreases |m|
  {
    if m == map[] then 0
    else
      var a :| a in m;
      m[a] + Sum(m - {a})
  }

  /** Any entry can be split off a sum, not only the one `Sum` happens to pick. */
  lemma {:induction false} SumRemove(m: Lamports, a: Addr)
    requires a in m
    ensures Sum(m) == m[a] + Sum(m - {a})
    decreases |m|
  {
    var b :| b in m && Sum(m) == m[b] + Sum(m - {b});
    if b != a {
      assert a in m - {b};
      SumRemove(m - {b}, a);
      assert b in m - {a};
      SumRemove(m - {a}, b);
      assert m - {b} - {a} == m - {a} - {b};
    }
  }

  /** Overwriting one balance changes the sum by exactly the difference. */
  lemma SumUpdate(m: Lamports, a: Addr, v: nat)
    ensures Sum(m[a := v]) + Balance(m, a) == Sum(m) + v
  {
    var m' := m[a := v];
    SumRemove(m', a);
    if a in m {
      SumRemove(m, a);
      assert m' - {a} == m - {a};
    } else {
      assert m' - {a} == m;
    }
  }

  /** `a` gains `x` lamports. */
  function Credit(m: Lamports, a: Addr, x: nat): Lamports {
    m[a := Balance(m, a) + x]
  }

  /** `a` loses `x` lamports. */
  function Debit(m: Lamports, a: Addr, x: nat): Lamports
    requires x <= Balance(m, a)
  {
    m[a := Balance(m, a) - x]
  }

  /** `m'` is `m` after `amount` lamports moved from `from` to `to`. */
  ghost predicate Moved(m: Lamports, m': Lamports, from: Addr, to: Addr, amount: nat) {
    forall a {:trigger Balance(m', a)} ::
      Balance(m', a) + (if a == from then amount else 0)
        == Balance(m, a) + (if a == to then amount else 0)
  }

  /**
    The system program's `transfer` instruction: it fails when the source holds
    fewer lamports than requested, and otherwise moves exactly `amount` from
    `from` to `to` without creating or destroying any lamport.
   */
  function Transfer(m: Lamports, from: Addr, to: Addr, amount: nat): (r: Result<Lamports>)
    ensures r.Err? <==> Balance(m, from) < amount
    ensures r.Err? ==> r.error == InsufficientLamports
    ensures r.Ok? ==> Moved(m, r.value, from, to, amount)
    ensures r.Ok? ==> Sum(r.value) == Sum(m)
  {
    if Balance(m, from) < amount then Err(InsufficientLamports)
    else
      var debited := Debit(m, from, amount);
      SumUpdate(m, from, Balance(m, from) - amount);
      SumUpdate(debited, to, Balance(debited, to) + amount);
      Ok(Credit(debited, to, amount))
  }
}
