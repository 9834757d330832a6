/** The doctor-management page (src/components/DoctorManagement.tsx): the
    approved doctors, their active/resigned counts, the search filter and
    resigning a doctor. */
module DoctorManagement {
  import opened Js
  import opened DoctorService

  const AllFilter: string := "all"
  const ResignFailedMessage: string := "Failed to update doctor status. Please try again."
  const LoadFailedMessage: string := "Failed to load approved doctors. Please ensure the backend server is running."

  /** `doctors.filter(d => d.status === status)` */
  function WithStatus(doctors: seq<ManagedDoctor>, status: string): seq<ManagedDoctor> {
    Filter(doctors, HasStatus(status))
  }

  /** The filter's test: `d => d.status === status`. */
  function HasStatus(status: string): ManagedDoctor -> bool {
    (d: ManagedDoctor) => d.status == status
  }

  /** The active and resigned counts are the numbers of doctors with
      exactly that status. */
  lemma StatusCount(doctors: seq<ManagedDoctor>, status: string)
    ensures |WithStatus(doctors, status)| == |set i: nat | i < |doctors| && doctors[i].status == status|
  {
    var keep := HasStatus(status);
    FilterCount(doctors, keep);
    assert PassingPositions(doctors, keep) == set i: nat | i < |doctors| && doctors[i].status == status;
  }

  /** `activeDoctors` */
  function ActiveCount(doctors: seq<ManagedDoctor>): nat {
    |WithStatus(doctors, "active")|
  }

  /** `resignedDoctors` */
  function ResignedCount(doctors: seq<ManagedDoctor>): nat {
    |WithStatus(doctors, "resigned")|
  }

  /** Every doctor is active or resigned, so the two counts add up to the
      list's length. */
  lemma {:induction false} CountsCoverList(doctors: seq<ManagedDoctor>)
    requires forall i :: 0 <= i < |doctors| ==> doctors[i].status in {"active", "resigned"}
    ensures ActiveCount(doctors) + ResignedCount(doctors) == |doctors|
    decreases |doctors|
  {
    if doctors != [] {
      CountsCoverList(doctors[1..]);
    }
  }

  /** The mapped list */
  function MapAll(ds: seq<Doctor>): (r: seq<ManagedDoctor>)
    ensures |r| == |ds|
    ensures forall i :: 0 <= i < |ds| ==> r[i] == MapDoctorToManaged(ds[i])
  {
    seq(|ds|, i requires 0 <= i < |ds| => MapDoctorToManaged(ds[i]))
  }

  /** The page shows mapped records only, so its counts always cover the
      whole list. */
  lemma MappedCountsCoverList(ds: seq<Doctor>)
    ensures ActiveCount(MapAll(ds)) + ResignedCount(MapAll(ds)) == |ds|
  {
    CountsCoverList(MapAll(ds));
  }

  /** The filter's test: name or specialization contains the term
      (case-insensitively) and the status filter is "all" or the status. */
  predicate Keeps(d: ManagedDoctor, term: string, statusFilter: string) {
    (MatchesTerm(d.name, term) || MatchesTerm(d.specialization, term))
    && (statusFilter == AllFilter || d.status == statusFilter)
  }

  /** `filteredDoctors` */
  function FilterDoctors(doctors: seq<ManagedDoctor>, term: string, statusFilter: string): seq<ManagedDoctor> {
    Filter(doctors, (d: ManagedDoctor) => Keeps(d, term, statusFilter))
  }

  /** The list shows exactly the doctors the search and the status filter
      keep, in the loaded order, each as often as loaded. */
  lemma FilteredList(doctors: seq<ManagedDoctor>, more: seq<ManagedDoctor>, term: string, statusFilter: string)
    ensures forall d :: d in FilterDoctors(doctors, term, statusFilter) <==> d in doctors && Keeps(d, term, statusFilter)
    ensures FilterDoctors(doctors + more, term, statusFilter)
         == FilterDoctors(doctors, term, statusFilter) + FilterDoctors(more, term, statusFilter)
    ensures |FilterDoctors(doctors, term, statusFilter)|
         == |set i: nat | i < |doctors| && Keeps(doctors[i], term, statusFilter)|
  {
    var keep := (d: ManagedDoctor) => Keeps(d, term, statusFilter);
    FilterKeepsExactly(doctors, keep);
    FilterAppend(doctors, more, keep);
    FilterCount(doctors, keep);
    assert PassingPositions(doctors, keep) == set i: nat | i < |doctors| && Keeps(doctors[i], term, statusFilter);
  }

  /** With an empty search and the "all" filter every doctor is listed. */
  lemma NoFilterKeepsAll(doctors: seq<ManagedDoctor>)
    ensures FilterDoctors(doctors, "", AllFilter) == doctors
  {
    forall i | 0 <= i < |doctors| ensures Keeps(doctors[i], "", AllFilter) {
      EmptyTermMatches(doctors[i].name);
    }
    FilterAll(doctors, (d: ManagedDoctor) => Keeps(d, "", AllFilter));
  }

  /** The "Resign" action is offered only to active doctors. */
  predicate CanResign(d: ManagedDoctor) {
    d.status == "active"
  }

  /** `prev.map(doc => doc.id === id ? { ...doc, status: 'resigned' } : doc)` */
  function Resigned(doctors: seq<ManagedDoctor>, id: string): (r: seq<ManagedDoctor>)
    ensures |r| == |doctors|
    ensures forall i :: 0 <= i < |doctors| ==>
      && r[i].(status := doctors[i].status) == doctors[i]
      && r[i].status == (if doctors[i].id == id then "resigned" else doctors[i].status)
  {
    if doctors == [] then []
    else [if doctors[0].id == id then doctors[0].(status := "resigned") else doctors[0]] + Resigned(doctors[1..], id)
  }

  lemma {:induction false} ResignAbsentId(doctors: seq<ManagedDoctor>, id: string)
    requires forall i :: 0 <= i < |doctors| ==> doctors[i].id != id
    ensures Resigned(doctors, id) == doctors
    decreases |doctors|
  {
    if doctors != [] {
      ResignAbsentId(doctors[1..], id);
    }
  }

  /** The first doctor's contribution to a status count, after resigning,
      then the rest's. */
  lemma ResignStep(doctors: seq<ManagedDoctor>, id: string, t: string)
    requires doctors != []
    ensures |WithStatus(Resigned(doctors, id), t)|
         == (if (if doctors[0].id == id then "resigned" else doctors[0].status) == t then 1 else 0)
          + |WithStatus(Resigned(doctors[1..], id), t)|
  {
    var r := Resigned(doctors, id);
    var h := if doctors[0].id == id then doctors[0].(status := "resigned") else doctors[0];
    assert r == [h] + Resigned(doctors[1..], id);
    assert r[1..] == Resigned(doctors[1..], id);
    FilterStep(r, HasStatus(t));
  }

  /** Resigning the one doctor with the id moves it from its status's
      count to the resigned count. */
  lemma {:induction false} ResignMovesCount(doctors: seq<ManagedDoctor>, k: nat, t: string)
    requires k < |doctors|
    requires forall i :: 0 <= i < |doctors| && i != k ==> doctors[i].id != doctors[k].id
    ensures |WithStatus(Resigned(doctors, doctors[k].id), t)| + (if doctors[k].status == t then 1 else 0)
         == |WithStatus(doctors, t)| + (if t == "resigned" then 1 else 0)
    decreases |doctors|
  {
    var id, tail := doctors[k].id, doctors[1..];
    ResignStep(doctors, id, t);
    FilterStep(doctors, HasStatus(t));
    if k == 0 {
      forall i | 0 <= i < |tail| ensures tail[i].id != id {
        assert tail[i] == doctors[i + 1];
      }
      ResignAbsentId(tail, id);
    } else {
      assert doctors[0].id != id;
      assert tail[k - 1] == doctors[k];
      forall i | 0 <= i < |tail| && i != k - 1 ensures tail[i].id != tail[k - 1].id {
        assert tail[i] == doctors[i + 1];
      }
      ResignMovesCount(tail, k - 1, t);
    }
  }

  /** Resigning the one active doctor with the id moves one doctor from the
      active count to the resigned count, and that doctor is no longer
      offered the action. */
  lemma ResignMovesOne(doctors: seq<ManagedDoctor>, k: nat)
    requires k < |doctors| && CanResign(doctors[k])
    requires forall i :: 0 <= i < |doctors| && i != k ==> doctors[i].id != doctors[k].id
    ensures ActiveCount(Resigned(doctors, doctors[k].id)) + 1 == ActiveCount(doctors)
    ensures ResignedCount(Resigned(doctors, doctors[k].id)) == ResignedCount(doctors) + 1
    ensures !CanResign(Resigned(doctors, doctors[k].id)[k])
  {
    ResignMovesCount(doctors, k, "active");
    ResignMovesCount(doctors, k, "resigned");
  }

  /** The page's state. */
  class ManagementPage {
    var doctors: seq<ManagedDoctor>
    var error: Option<string>
    var loading: bool
    var resigning: bool

    constructor()
      ensures doctors == [] && error.None? && loading && !resigning
    {
      doctors := [];
      error := None;
      loading := true;
      resigning := false;
    }

    /** `loadApprovedDoctors`: `fetched` is the mapped list, or none when
        the fetch threw. */
    method LoadApprovedDoctors(fetched: Option<seq<ManagedDoctor>>)
      modifies this`doctors, this`error, this`loading
      ensures !loading
      ensures fetched.Some? ==> doctors == fetched.value && error.None?
      ensures fetched.None? ==> doctors == old(doctors) && error == Some(LoadFailedMessage)
    {
      loading := true;
      error := None;
      if fetched.Some? {
        doctors := fetched.value;
      } else {
        error := Some(LoadFailedMessage);
      }
      loading := false;
    }

    /** `handleResignDoctor`: `service` is how the resign call ends. */
    method HandleResignDoctor(doctorId: string, service: Call)
      modifies this`doctors, this`error, this`resigning
      ensures !resigning
      ensures service.Resolved? ==> doctors == Resigned(old(doctors), doctorId) && error == old(error)
      ensures service.Threw? ==> doctors == old(doctors) && error == Some(ResignFailedMessage)
    {
      resigning := true;
      if service.Resolved? {
        doctors := Resigned(doctors, doctorId);
      } else {
        error := Some(ResignFailedMessage);
      }
      resigning := false;
    }
  }
}
