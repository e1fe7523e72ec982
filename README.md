# Patient ledger contract, modelled in Dafny

The modelled system is a small smart contract on a deterministic execution host. It keeps
patients (keyed by account id, each with a name, an age and a token balance) and an
insertion-ordered list of appointments. Each appointment names a patient, a date, a doctor and
a fee. The contract stores each collection whole under one fixed storage key (`"patients"`,
`"appointments"`). Every entry point loads what it needs, changes it in memory and writes it
back. A failed `assert` aborts the whole call, and then the host commits nothing.

The model (Dafny 4.11) has four modules:

- `Records` (`records.dfy`): the `Patient`, `Appointment` and `Transfer` records. It also has
  the `Outcome` of a call (`Ok` or `Abort(failure)`) with the abort messages of the source, what
  loading a storage slot yields (`Loaded`), the balance update `Credit`, and the invariants
  `BalancesNonNegative` and `BookedForRegistered`.
- `Selection` (`selection.dfy`): the filter behind `getAppointments` (`ForPatient`). It has an
  independent count (`CountFor`) and a subsequence predicate, plus lemmas saying that the filter
  is exactly the (unique) order-preserving subsequence of one patient's appointments and how it
  changes when an appointment is appended.
- `Ledger` (`contract.dfy`): the class `PatientContract`. Its fields are `patients`
  (`map<string, Patient>`), `appointments` (`seq<Appointment>`), the two storage slots
  `storedPatients` / `storedAppointments` (`Option`, `None` until first written) and the log
  `transfers` of outbound transfers requested from the host. `Valid()` is kept by every call
  method. It says that memory agrees with what loading the slots gives, that every balance is
  `>= 0`, and that every appointment belongs to a registered patient. The call entry points are
  methods that return an `Outcome` where the source can abort. On `Abort` every field is
  unchanged, which models the host's all-or-nothing commit. The two view entry points are
  functions.
- `Scenarios` (`scenarios.dfy`): call sequences on a fresh contract, proved only from the
  entry points' contracts.

Host inputs become parameters. The signer account id is `caller`. The attached deposit is
`attached: nat`, because the host's deposit is an unsigned amount. The result of the runtime's
`BigInt(string)` parser is a `ParsedAmount` (`Option<int>`), where `None` means the parser
threw, which aborts the call. The parse happens where the source does it: in
`scheduleAppointment` after the registration check, and in `withdraw` before it, so a malformed
amount aborts a withdrawal even for an unregistered caller. Fees and withdrawal amounts are
`int`, since the parser accepts negative numbers. Balances still cannot go negative, because every
debit is guarded by `balance >= x`. A negative fee is therefore accepted and *raises* the
balance (`Scenarios.NegativeFeeCredits`). In the same way a registered caller's withdrawal of
a negative amount succeeds, raises the balance and logs a transfer of that negative amount
(`Scenarios.NegativeWithdrawalCredits`). This is the code's behaviour, and it is kept.

Behaviours kept as the code has them: `scheduleAppointment` books against the supplied
`patientId` with no check of who the caller is; `withdraw` by an unregistered caller is a
silent no-op that succeeds; `deposit` by an unregistered caller is silently dropped;
registration is first-write-wins.

## Model

| member | source | states |
|---|---|---|
| Ledger.PatientContract.constructor | src/contract.ts:35-38 | both collections start empty, nothing is stored, no transfer is requested, and the invariant holds |
| Ledger.PatientContract.SavePatients | src/contract.ts:41-43 | the patients slot afterwards holds exactly the in-memory map |
| Ledger.PatientContract.LoadPatients | src/contract.ts:45-50 | the map becomes the stored one; an absent slot leaves it as it was (empty on a fresh contract) |
| Ledger.PatientContract.SaveAppointments | src/contract.ts:52-54 | the appointments slot afterwards holds exactly the in-memory list |
| Ledger.PatientContract.LoadAppointments | src/contract.ts:56-61 | the list becomes the stored one; an absent slot leaves it as it was |
| Records.Loaded | src/contract.ts:47-60 | loading gives either the collection already in memory or the stored one, and loading a slot that holds the in-memory collection changes nothing (why every load inside a call is harmless) |
| Records.Message | src/contract.ts:80-87 | each assertion failure has its own reason text, the texts of lines 80, 87 and 123; only a rejected amount has none from the contract, because the runtime's parser raises that error |
| Ledger.PatientContract.RegisterPatient | src/contract.ts:63-71 | a new caller is inserted as exactly `Patient(name, age, 0)` and persisted, with nothing else changed; an already-registered caller leaves every field unchanged (idempotent); the invariant is kept |
| Ledger.PatientContract.ScheduleAppointment | src/contract.ts:73-89 | aborts with `PatientNotRegistered` for an unknown id, with `AmountNotAnInteger` for an unparsable fee and with `InsufficientForAppointment` when balance < fee; succeeds iff none of these; on abort every field is unchanged; on success the patient's balance is old balance - fee, other patients are unchanged, the list is old list + the new appointment, both slots are written, that patient's selection gains exactly the new appointment and every other patient's selection is unchanged |
| Ledger.PatientContract.GetPatient | src/contract.ts:91-95 | returns the stored record iff the id is registered, otherwise None; the returned balance is non-negative |
| Ledger.PatientContract.GetAppointments | src/contract.ts:97-101 | returns an order-preserving subsequence of the list holding exactly that patient's appointments, one entry per match, and nothing for an unregistered id |
| Ledger.PatientContract.Deposit | src/contract.ts:103-114 | a registered caller's balance grows by exactly the attached amount and is persisted; an unregistered caller changes nothing and no error is raised |
| Ledger.PatientContract.Withdraw | src/contract.ts:116-131 | aborts with `AmountNotAnInteger` on an unparsable amount and with `InsufficientForWithdrawal` when balance < amount, changing nothing; otherwise succeeds; a registered caller's balance becomes old - amount and exactly one `Transfer(caller, amount)` is appended; an unregistered caller changes nothing and requests no transfer |
| Records.Credit | src/contract.ts:81-82 | only the named patient's balance moves, by exactly `delta`; its name and age, the key set and every other patient are kept |
| Selection.ForPatient | src/contract.ts:100 | the selection is no longer than the list, and each entry is in the list and belongs to the requested patient |
| Selection.ForPatientMembership | src/contract.ts:100 | an appointment is selected iff it is in the list and booked for the requested patient |
| Selection.ForPatientIsSubsequence | src/contract.ts:100 | the selection keeps the original insertion order (it is a subsequence of the list) |
| Selection.ForPatientLength | src/contract.ts:100 | the selection has one entry per matching appointment, duplicates included |
| Selection.MatchingSubsequenceBound | src/contract.ts:100 | no subsequence made only of one patient's appointments is longer than that patient's number of appointments |
| Selection.ForPatientUnique | src/contract.ts:100 | the selection is the only order-preserving subsequence of that patient's appointments with as many entries as there are matches |
| Selection.ForPatientAppend | src/contract.ts:83 | appending an appointment extends its own patient's selection by it and leaves every other selection unchanged |
| Scenarios.StorageRoundTrip | src/contract.ts:41-61 | saving a collection and loading it back leaves it unchanged, and the slot then holds it |
| Scenarios.LoadBeforeAnyWrite | src/contract.ts:35-61 | loading from a fresh contract, where no key was ever written, leaves both collections empty |
| Scenarios.AliceBooksAVisit | src/contract.ts:63-101 | register, deposit 100, book with fee 40: the balance is 60 and the patient's appointments are exactly the one booked |
| Scenarios.BobIsNotRegistered | src/contract.ts:86-88 | booking for an unregistered account aborts with `PatientNotRegistered`, reported as "Patient not registered", and its appointment list is empty |
| Scenarios.CarolCannotOverdraw | src/contract.ts:123 | withdrawing 1 from a zero balance aborts with `InsufficientForWithdrawal`, reported as "Insufficient balance", and the balance stays 0 |
| Scenarios.RegisterTwice | src/contract.ts:67 | a second registration keeps the first name, age and zero balance |
| Scenarios.DepositBeforeRegistering | src/contract.ts:108 | a deposit before registration is dropped, so the later balance is 0 |
| Scenarios.FrankWithdraws | src/contract.ts:117-131 | a covered withdrawal of 30 from 100 leaves 70 and requests exactly one transfer of 30 to the caller |
| Scenarios.WithdrawUnregistered | src/contract.ts:121 | a withdrawal by an unregistered account succeeds and requests no transfer |
| Scenarios.NegativeFeeCredits | src/contract.ts:79-81 | a fee of -5 on a zero balance is accepted and leaves a balance of 5 |
| Scenarios.NegativeWithdrawalCredits | src/contract.ts:119-128 | withdrawing -5 from a zero balance succeeds, leaves a balance of 5 and requests one transfer of -5 to the caller |

The invariant "every balance stays `>= 0` over any sequence of calls" (src/contract.ts:68, 80-81,
110, 123-124) is part of `Valid()`. The constructor establishes it and every call method both
requires and ensures it.

## Left out

- The JSON encoding in `save*`/`load*` (`JSON.stringify`/`JSON.parse` of the map entries and of
  the big integers) is library behaviour. A storage slot holds the collection value itself, so
  the model assumes a lossless encoding, and its save-then-load round trip rests on that
  assumption. Whether the runtime's JSON functions accept `bigint` fields (`balance`, `fee`) and
  give them back as `bigint` is not modelled. A slot with corrupt contents cannot arise in
  the model.
- The decimal-string parsing of `BigInt(string)` is a runtime routine. The model takes its
  result as input, and a parse failure is one abort (`AmountNotAnInteger`). The contract
  gives no reason text for it, so `Message` gives none.
- The host APIs (signer account id, attached deposit, storage read/write, transfer promises)
  become parameters, the two storage slots and the `transfers` log. The model assumes that
  requesting a transfer always succeeds within the call, so it logs the request whatever
  the amount. If the host refused a request when it was made (a negative amount, say), the
  whole call would abort, and the model does not capture that. Whether a transfer is
  executed later is not modelled either. A transfer that failed later would leave the debit
  in place.
- The host's own serialisation of the whole contract object between calls, and the call/view
  decorators, are left out. The model is one object whose fields stay equal to the stored slots
  between calls.
- Gas metering and cross-call concurrency: the host runs calls one at a time.
- `age` is a JavaScript `number`; the model uses `int`, so fractional or NaN ages are not
  represented.
- `sandbox-test/main.ava.ts` is a network client with no ledger logic and is not part of this
  model.
