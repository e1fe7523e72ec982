/**
 * The patient ledger contract: two collections held in memory, persisted as whole
 * collections under the storage keys "patients" and "appointments", and the call
 * and view entry points over them.
 */
module Ledger {
  import opened Records
  import opened Selection

  class PatientContract {
    /** The patients, keyed by account id, as last loaded or mutated. */
    var patients: map<string, Patient>
    /** The appointments in booking order, as last loaded or mutated. */
    var appointments: seq<Appointment>
    /** The slot under the storage key "patients": None until the first write. */
    var storedPatients: Option<map<string, Patient>>
    /** The slot under the storage key "appointments": None until the first write. */
    var storedAppointments: Option<seq<Appointment>>
    /** Every outbound transfer requested from the host, in order. */
    var transfers: seq<Transfer>

    /**
     * Between calls the collections are what loading the slots yields (empty when a
     * slot was never written), every balance is non-negative and every appointment
     * belongs to a registered patient.
     */
    ghost predicate Valid()
      reads this
    {
      && patients == Loaded(storedPatients, map[])
      && appointments == Loaded(storedAppointments, [])
      && BalancesNonNegative(patients)
      && BookedForRegistered(appointments, patients)
    }

    constructor ()
      ensures Valid()
      ensures patients == map[] && appointments == []
      ensures storedPatients == None && storedAppointments == None
      ensures transfers == []
    {
      patients := map[];
      appointments := [];
      storedPatients := None;
      storedAppointments := None;
      transfers := [];
    }

    /** Overwrites the patients slot with the whole in-memory map. */
    method SavePatients()
      modifies this`storedPatients
      ensures storedPatients == Some(patients)
    {
      storedPatients := Some(patients);
    }

    /** Replaces the in-memory map by the stored one; an absent slot leaves it as it was. */
    method LoadPatients()
      modifies this`patients
      ensures patients == Loaded(old(storedPatients), old(patients))
    {
      if storedPatients.Some? {
        patients := storedPatients.value;
      }
    }

    /** Overwrites the appointments slot with the whole in-memory list. */
    method SaveAppointments()
      modifies this`storedAppointments
      ensures storedAppointments == Some(appointments)
    {
      storedAppointments := Some(appointments);
    }

    /** Replaces the in-memory list by the stored one; an absent slot leaves it as it was. */
    method LoadAppointments()
      modifies this`appointments
      ensures appointments == Loaded(old(storedAppointments), old(appointments))
    {
      if storedAppointments.Some? {
        appointments := storedAppointments.value;
      }
    }

    /**
     * Registers `caller` with a zero balance. A caller already registered is left
     * exactly as it was and nothing is written (first write wins).
     */
    method RegisterPatient(caller: string, name: string, age: int)
      requires Valid()
      modifies this
      ensures Valid()
      ensures caller in old(patients) ==> unchanged(this)
      ensures caller !in old(patients) ==>
        && patients == old(patients)[caller := Patient(name, age, 0)]
        && storedPatients == Some(patients)
      ensures appointments == old(appointments) && storedAppointments == old(storedAppointments)
      ensures transfers == old(transfers)
    {
      LoadPatients();
      if caller !in patients {
        patients := patients[caller := Patient(name, age, 0)];
        SavePatients();
      }
    }

    /**
     * Books an appointment for `patientId` (any caller may book for anyone) and
     * debits its fee. Aborts, with nothing changed, when the patient is unknown,
     * the fee text is not an integer, or the balance is below the fee.
     */
    method ScheduleAppointment(patientId: string, date: string, doctor: string, fee: ParsedAmount)
      returns (outcome: Outcome)
      requires Valid()
      modifies this
      ensures Valid()
      ensures patientId !in old(patients) ==> outcome == Abort(PatientNotRegistered)
      ensures patientId in old(patients) && fee.None? ==> outcome == Abort(AmountNotAnInteger)
      ensures patientId in old(patients) && fee.Some? && old(patients)[patientId].balance < fee.value ==>
        outcome == Abort(InsufficientForAppointment)
      ensures outcome.Ok? <==>
        patientId in old(patients) && fee.Some? && old(patients)[patientId].balance >= fee.value
      ensures outcome.Abort? ==> unchanged(this)
      ensures outcome.Ok? ==>
        && patients == Credit(old(patients), patientId, -fee.value)
        && appointments == old(appointments) + [Appointment(patientId, date, doctor, fee.value)]
        && storedPatients == Some(patients)
        && storedAppointments == Some(appointments)
        && transfers == old(transfers)
      ensures outcome.Ok? ==>
        ForPatient(appointments, patientId) ==
          ForPatient(old(appointments), patientId) + [Appointment(patientId, date, doctor, fee.value)]
      ensures forall other :: other != patientId ==>
        ForPatient(appointments, other) == ForPatient(old(appointments), other)
    {
      LoadPatients();
      LoadAppointments();
      if patientId !in patients {
        return Abort(PatientNotRegistered);
      }
      if fee.None? {
        return Abort(AmountNotAnInteger);
      }
      var feeAmount := fee.value;
      if patients[patientId].balance < feeAmount {
        return Abort(InsufficientForAppointment);
      }
      var booked := Appointment(patientId, date, doctor, feeAmount);
      ghost var before := appointments;
      patients := Credit(patients, patientId, -feeAmount);
      appointments := appointments + [booked];
      SavePatients();
      SaveAppointments();
      forall id | true
        ensures ForPatient(appointments, id) == ForPatient(before, id) + (if patientId == id then [booked] else [])
      {
        ForPatientAppend(before, booked, id);
      }
      outcome := Ok;
    }

    /** The stored record of `patientId`, or None for an unknown id. */
    function GetPatient(patientId: string): (r: Option<Patient>)
      reads this
      requires Valid()
      ensures r.Some? <==> patientId in patients
      ensures r.Some? ==> r.value == patients[patientId] && r.value.balance >= 0
    {
      var current := Loaded(storedPatients, patients);
      if patientId in current then Some(current[patientId]) else None
    }

    /**
     * The appointments booked for `patientId`, in booking order: exactly the
     * subsequence of all appointments whose patient id is `patientId`.
     */
    function GetAppointments(patientId: string): (r: seq<Appointment>)
      reads this
      requires Valid()
      ensures IsSubsequence(r, appointments)
      ensures forall a :: a in r <==> a in appointments && a.patientId == patientId
      ensures |r| == CountFor(appointments, patientId)
      ensures patientId !in patients ==> r == []
    {
      var current := Loaded(storedAppointments, appointments);
      ForPatientIsSubsequence(current, patientId);
      ForPatientLength(current, patientId);
      assert forall a :: a in ForPatient(current, patientId) <==> a in current && a.patientId == patientId by {
        forall a {
          ForPatientMembership(current, patientId, a);
        }
      }
      ForPatient(current, patientId)
    }

    /**
     * Credits the attached deposit to the caller's balance. For an unregistered
     * caller nothing changes and no error is raised.
     */
    method Deposit(caller: string, attached: nat)
      requires Valid()
      modifies this
      ensures Valid()
      ensures caller !in old(patients) ==> unchanged(this)
      ensures caller in old(patients) ==>
        && patients == Credit(old(patients), caller, attached)
        && storedPatients == Some(patients)
      ensures appointments == old(appointments) && storedAppointments == old(storedAppointments)
      ensures transfers == old(transfers)
    {
      LoadPatients();
      if caller in patients {
        patients := Credit(patients, caller, attached);
        SavePatients();
      }
    }

    /**
     * Debits `amount` from the caller's balance and requests a transfer of it to
     * the caller. Aborts, with nothing changed, when the amount text is not an
     * integer or the balance is below the amount; an unregistered caller is a
     * silent no-op.
     */
    method Withdraw(caller: string, amount: ParsedAmount) returns (outcome: Outcome)
      requires Valid()
      modifies this
      ensures Valid()
      ensures amount.None? ==> outcome == Abort(AmountNotAnInteger)
      ensures amount.Some? && caller in old(patients) && old(patients)[caller].balance < amount.value ==>
        outcome == Abort(InsufficientForWithdrawal)
      ensures outcome.Ok? <==>
        amount.Some? && (caller in old(patients) ==> old(patients)[caller].balance >= amount.value)
      ensures outcome.Abort? || caller !in old(patients) ==> unchanged(this)
      ensures outcome.Ok? && caller in old(patients) ==>
        && patients == Credit(old(patients), caller, -amount.value)
        && storedPatients == Some(patients)
        && transfers == old(transfers) + [Transfer(caller, amount.value)]
      ensures appointments == old(appointments) && storedAppointments == old(storedAppointments)
    {
      LoadPatients();
      if amount.None? {
        return Abort(AmountNotAnInteger);
      }
      var value := amount.value;
      if caller in patients {
        if patients[caller].balance < value {
          return Abort(InsufficientForWithdrawal);
        }
        patients := Credit(patients, caller, -value);
        transfers := transfers + [Transfer(caller, value)];
        SavePatients();
      }
      outcome := Ok;
    }
  }
}
