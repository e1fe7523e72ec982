/** The records the patient ledger keeps, and the outcome of a call. */
module Records {

  datatype Option<+T> = None | Some(value: T)

  /** A registered patient; the account id is the key of the map, not a field. */
  datatype Patient = Patient(name: string, age: int, balance: int)

  /** One booked appointment; `patientId` is the account id it was booked against. */
  datatype Appointment = Appointment(patientId: string, date: string, doctor: string, fee: int)

  /** An outbound token transfer requested from the host. */
  datatype Transfer = Transfer(receiver: string, amount: int)

  /** Why a call was aborted. */
  datatype Failure =
    | PatientNotRegistered
    | InsufficientForAppointment
    | InsufficientForWithdrawal
    | AmountNotAnInteger

  /** The result of a call: committed, or aborted with nothing persisted. */
  datatype Outcome = Ok | Abort(failure: Failure)

  /**
   * The reason text the contract's own assertion reports for an aborted call; None for
   * a rejected amount, whose error is raised by the runtime's parser, not by the contract.
   */
  function Message(f: Failure): (m: Option<string>)
    ensures m.None? <==> f == AmountNotAnInteger
  {
    match f
    case PatientNotRegistered => Some("Patient not registered")
    case InsufficientForAppointment => Some("Insufficient balance to schedule appointment")
    case InsufficientForWithdrawal => Some("Insufficient balance")
    case AmountNotAnInteger => None
  }

  /** An amount as the runtime's decimal-string parser returns it: the integer, or None when it rejects the text. */
  type ParsedAmount = Option<int>

  /**
   * What loading a storage slot leaves in a collection that held `current`: the stored
   * collection when the slot was written, otherwise `current`. The result is one of the
   * two, and loading a slot that holds the collection already in memory changes nothing.
   */
  function Loaded<T>(slot: Option<T>, current: T): (r: T)
    ensures r == current || slot == Some(r)
    ensures slot == Some(current) ==> r == current
  {
    if slot.Some? then slot.value else current
  }

  /** Every patient's balance is non-negative. */
  ghost predicate BalancesNonNegative(patients: map<string, Patient>)
  {
    forall id :: id in patients ==> patients[id].balance >= 0
  }

  /** Every appointment was booked against a registered patient. */
  ghost predicate BookedForRegistered(appointments: seq<Appointment>, patients: map<string, Patient>)
  {
    forall a :: a in appointments ==> a.patientId in patients
  }

  /** `patients` with the balance of `id` moved by `delta`; name and age are kept. */
  function Credit(patients: map<string, Patient>, id: string, delta: int): (r: map<string, Patient>)
    requires id in patients
    ensures r.Keys == patients.Keys
    ensures r[id] == Patient(patients[id].name, patients[id].age, patients[id].balance + delta)
    ensures forall other :: other in patients && other != id ==> r[other] == patients[other]
  {
    patients[id := patients[id].(balance := patients[id].balance + delta)]
  }
}
