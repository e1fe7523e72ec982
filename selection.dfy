/** Selecting one patient's appointments from the insertion-ordered list. */
module Selection {
  import opened Records

  /** The appointments of `s` booked for `id`, in the order of `s`. */
  function ForPatient(s: seq<Appointment>, id: string): (r: seq<Appointment>)
    ensures |r| <= |s|
    ensures forall a :: a in r ==> a in s && a.patientId == id
  {
    if s == [] then []
    else if s[0].patientId == id then [s[0]] + ForPatient(s[1..], id)
    else ForPatient(s[1..], id)
  }

  /** How many appointments of `s` are booked for `id`. */
  function CountFor(s: seq<Appointment>, id: string): nat
  {
    if s == [] then 0
    else CountFor(s[1..], id) + (if s[0].patientId == id then 1 else 0)
  }

  /** `r` is `s` with some elements left out and the rest kept in order. */
  ghost predicate IsSubsequence(r: seq<Appointment>, s: seq<Appointment>)
    decreases |s|
  {
    if r == [] then true
    else if s == [] then false
    else (r[0] == s[0] && IsSubsequence(r[1..], s[1..])) || IsSubsequence(r, s[1..])
  }

  /** The selection keeps exactly the appointments booked for `id`. */
  lemma {:induction false} ForPatientMembership(s: seq<Appointment>, id: string, a: Appointment)
    ensures a in ForPatient(s, id) <==> a in s && a.patientId == id
  {
    if s != [] {
      ForPatientMembership(s[1..], id, a);
      assert s == [s[0]] + s[1..];
    }
  }

  /** The selection is a subsequence of the list: original order is kept. */
  lemma {:induction false} ForPatientIsSubsequence(s: seq<Appointment>, id: string)
    ensures IsSubsequence(ForPatient(s, id), s)
  {
    if s != [] {
      ForPatientIsSubsequence(s[1..], id);
      var r := ForPatient(s, id);
      if s[0].patientId == id {
        assert r[0] == s[0] && r[1..] == ForPatient(s[1..], id);
      }
    }
  }

  /** The selection holds one entry per matching appointment, duplicates included. */
  lemma {:induction false} ForPatientLength(s: seq<Appointment>, id: string)
    ensures |ForPatient(s, id)| == CountFor(s, id)
  {
    if s != [] {
      ForPatientLength(s[1..], id);
    }
  }

  /** A subsequence of matching appointments is no longer than the number of matches. */
  lemma {:induction false} MatchingSubsequenceBound(r: seq<Appointment>, s: seq<Appointment>, id: string)
    requires IsSubsequence(r, s)
    requires forall a :: a in r ==> a.patientId == id
    ensures |r| <= CountFor(s, id)
    decreases |s|
  {
    if r != [] {
      if r[0] == s[0] && IsSubsequence(r[1..], s[1..]) {
        assert r[0] in r;
        assert forall a :: a in r[1..] ==> a in r;
        MatchingSubsequenceBound(r[1..], s[1..], id);
      } else {
        MatchingSubsequenceBound(r, s[1..], id);
      }
    }
  }

  /**
   * The selection is the only subsequence of `s` that consists of appointments for
   * `id` and has as many entries as `s` has matches.
   */
  lemma {:induction false} ForPatientUnique(r: seq<Appointment>, s: seq<Appointment>, id: string)
    requires IsSubsequence(r, s)
    requires forall a :: a in r ==> a.patientId == id
    requires |r| == CountFor(s, id)
    ensures r == ForPatient(s, id)
    decreases |s|
  {
    if s == [] {
    } else if r == [] {
      ForPatientLength(s, id);
    } else {
      assert r[0] in r;
      assert forall a :: a in r[1..] ==> a in r;
      if r[0] == s[0] && IsSubsequence(r[1..], s[1..]) {
        ForPatientUnique(r[1..], s[1..], id);
        assert r == [r[0]] + r[1..];
      } else {
        MatchingSubsequenceBound(r, s[1..], id);
        if s[0].patientId == id {
          assert false;
        }
        ForPatientUnique(r, s[1..], id);
      }
    }
  }

  /** Appending one appointment adds it to the selection of its own patient only. */
  lemma {:induction false} ForPatientAppend(s: seq<Appointment>, a: Appointment, id: string)
    ensures ForPatient(s + [a], id) == ForPatient(s, id) + (if a.patientId == id then [a] else [])
  {
    if s == [] {
      assert s + [a] == [a];
    } else {
      assert (s + [a])[0] == s[0];
      assert (s + [a])[1..] == s[1..] + [a];
      ForPatientAppend(s[1..], a, id);
    }
  }
}
