/** Call sequences on a fresh contract, proved from the entry points' contracts alone. */
module Scenarios {
  import opened Records
  import opened Selection
  import opened Ledger

  /** Saving a collection and loading it back gives the same collection. */
  method StorageRoundTrip(c: PatientContract)
    modifies c
    ensures c.patients == old(c.patients) && c.appointments == old(c.appointments)
    ensures c.storedPatients == Some(c.patients) && c.storedAppointments == Some(c.appointments)
  {
    c.SavePatients();
    c.LoadPatients();
    c.SaveAppointments();
    c.LoadAppointments();
  }

  /** On a fresh contract nothing is stored, so loading leaves both collections empty. */
  method LoadBeforeAnyWrite() returns (patients: map<string, Patient>, appointments: seq<Appointment>)
    ensures patients == map[] && appointments == []
  {
    var c := new PatientContract();
    c.LoadPatients();
    c.LoadAppointments();
    patients, appointments := c.patients, c.appointments;
  }

  /** Register, deposit 100, book a visit with fee 40: balance 60 and one appointment. */
  method AliceBooksAVisit() returns (balance: int, booked: seq<Appointment>)
    ensures balance == 60
    ensures booked == [Appointment("alice", "2024-06-01", "Dr. Smith", 40)]
  {
    var c := new PatientContract();
    c.RegisterPatient("alice", "Alice", 30);
    c.Deposit("alice", 100);
    var outcome := c.ScheduleAppointment("alice", "2024-06-01", "Dr. Smith", Some(40));
    assert outcome.Ok?;
    var p := c.GetPatient("alice");
    balance := p.value.balance;
    booked := c.GetAppointments("alice");
  }

  /** Booking for an account that never registered aborts and books nothing. */
  method BobIsNotRegistered() returns (outcome: Outcome, booked: seq<Appointment>)
    ensures outcome == Abort(PatientNotRegistered)
    ensures Message(outcome.failure) == Some("Patient not registered")
    ensures booked == []
  {
    var c := new PatientContract();
    outcome := c.ScheduleAppointment("bob", "2024-06-01", "Dr. Smith", Some(40));
    booked := c.GetAppointments("bob");
  }

  /** Withdrawing 1 from a fresh zero balance aborts and leaves the balance at 0. */
  method CarolCannotOverdraw() returns (outcome: Outcome, balance: int)
    ensures outcome == Abort(InsufficientForWithdrawal)
    ensures Message(outcome.failure) == Some("Insufficient balance")
    ensures balance == 0
  {
    var c := new PatientContract();
    c.RegisterPatient("carol", "Carol", 40);
    outcome := c.Withdraw("carol", Some(1));
    var p := c.GetPatient("carol");
    balance := p.value.balance;
  }

  /** A second registration of the same account keeps the first name, age and balance. */
  method RegisterTwice() returns (p: Option<Patient>)
    ensures p == Some(Patient("Dana", 25, 0))
  {
    var c := new PatientContract();
    c.RegisterPatient("dana", "Dana", 25);
    c.RegisterPatient("dana", "Someone Else", 99);
    p := c.GetPatient("dana");
  }

  /** A deposit from an unregistered account is dropped: registering later starts at 0. */
  method DepositBeforeRegistering() returns (p: Option<Patient>)
    ensures p == Some(Patient("Erin", 50, 0))
  {
    var c := new PatientContract();
    c.Deposit("erin", 500);
    c.RegisterPatient("erin", "Erin", 50);
    p := c.GetPatient("erin");
  }

  /** A covered withdrawal debits the balance and requests exactly one transfer to the caller. */
  method FrankWithdraws() returns (balance: int, requested: seq<Transfer>)
    ensures balance == 70
    ensures requested == [Transfer("frank", 30)]
  {
    var c := new PatientContract();
    c.RegisterPatient("frank", "Frank", 61);
    c.Deposit("frank", 100);
    var outcome := c.Withdraw("frank", Some(30));
    var p := c.GetPatient("frank");
    balance, requested := p.value.balance, c.transfers;
  }

  /** A withdrawal by an unregistered account succeeds and requests no transfer. */
  method WithdrawUnregistered() returns (outcome: Outcome, requested: seq<Transfer>)
    ensures outcome == Ok
    ensures requested == []
  {
    var c := new PatientContract();
    outcome := c.Withdraw("grace", Some(30));
    requested := c.transfers;
  }

  /** The fee is not checked for sign: a negative fee is accepted and raises the balance. */
  method NegativeFeeCredits() returns (outcome: Outcome, balance: int)
    ensures outcome == Ok
    ensures balance == 5
  {
    var c := new PatientContract();
    c.RegisterPatient("heidi", "Heidi", 33);
    outcome := c.ScheduleAppointment("heidi", "2024-06-02", "Dr. Jones", Some(-5));
    var p := c.GetPatient("heidi");
    balance := p.value.balance;
  }

  /**
   * The withdrawal amount is not checked for sign either: withdrawing -5 succeeds,
   * raises the balance by 5 and requests a transfer of -5.
   */
  method NegativeWithdrawalCredits() returns (outcome: Outcome, balance: int, requested: seq<Transfer>)
    ensures outcome == Ok
    ensures balance == 5
    ensures requested == [Transfer("ivan", -5)]
  {
    var c := new PatientContract();
    c.RegisterPatient("ivan", "Ivan", 45);
    outcome := c.Withdraw("ivan", Some(-5));
    var p := c.GetPatient("ivan");
    balance, requested := p.value.balance, c.transfers;
  }
}
