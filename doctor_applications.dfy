/** The doctor-applications page (src/components/DoctorApplications.tsx):
    the status tabs and their counts, the search filter, and the status
    update that only super admins may use to approve or reject. */
module DoctorApplications {
  import opened Js
  import opened AdminTypes
  import opened DoctorService

  const AllTab: string := "all"

  /** The statuses only a super admin may set. */
  const FinalStatuses: set<string> := {"approved", "rejected"}

  /** The statuses the update form offers. */
  const FormStatuses: set<string> := {"new", "in-process", "pending"}

  const OnlySuperAdminsMessage: string := "Only super admins can approve or reject applications."
  const UpdateFailedMessage: string := "Failed to update status. Please try again."
  const LoadFailedMessage: string := "Failed to load doctor applications. Please ensure the backend server is running."

  /** `applications.filter(app => app.status === status)` */
  function WithStatus(apps: seq<Application>, status: string): seq<Application> {
    Filter(apps, HasStatus(status))
  }

  /** The filter's test: `a => a.status === status`. */
  function HasStatus(status: string): Application -> bool {
    (a: Application) => a.status == status
  }

  /** The count a tab shows: every application on "all", otherwise those
      with the tab's status. */
  function TabCount(apps: seq<Application>, tab: string): nat {
    if tab == AllTab then |apps| else |WithStatus(apps, tab)|
  }

  /** `pendingApplications` */
  function PendingApplications(apps: seq<Application>): seq<Application> {
    WithStatus(apps, "pending")
  }

  /** The filter's test: the name or the specialization contains the search
      term (case-insensitively) and the tab is "all" or the status. */
  predicate Keeps(a: Application, term: string, tab: string) {
    (MatchesTerm(a.doctorName, term) || MatchesTerm(a.specialization, term))
    && (tab == AllTab || a.status == tab)
  }

  /** `filteredApplications` */
  function FilterApplications(apps: seq<Application>, term: string, tab: string): seq<Application> {
    Filter(apps, (a: Application) => Keeps(a, term, tab))
  }

  /** The list shows exactly the applications the search and the tab
      keep, in the fetched order, each as often as fetched. */
  lemma FilteredList(apps: seq<Application>, more: seq<Application>, term: string, tab: string)
    ensures forall a :: a in FilterApplications(apps, term, tab) <==> a in apps && Keeps(a, term, tab)
    ensures FilterApplications(apps + more, term, tab)
         == FilterApplications(apps, term, tab) + FilterApplications(more, term, tab)
    ensures |FilterApplications(apps, term, tab)| == |set i: nat | i < |apps| && Keeps(apps[i], term, tab)|
  {
    var keep := (a: Application) => Keeps(a, term, tab);
    FilterKeepsExactly(apps, keep);
    FilterAppend(apps, more, keep);
    FilterCount(apps, keep);
    assert PassingPositions(apps, keep) == set i: nat | i < |apps| && Keeps(apps[i], term, tab);
  }

  /** A tab's count is the number of applications with that status. */
  lemma StatusCount(apps: seq<Application>, status: string)
    ensures |WithStatus(apps, status)| == |set i: nat | i < |apps| && apps[i].status == status|
  {
    var keep := HasStatus(status);
    FilterCount(apps, keep);
    assert PassingPositions(apps, keep) == set i: nat | i < |apps| && apps[i].status == status;
  }

  /** Each tab's count is the number of rows the list shows on that tab
      while the search box is empty. */
  lemma TabCountIsListLength(apps: seq<Application>, tab: string)
    ensures TabCount(apps, tab) == |FilterApplications(apps, "", tab)|
  {
    if tab == AllTab {
      NoFilterKeepsAll(apps);
    } else {
      forall i | 0 <= i < |apps| ensures Keeps(apps[i], "", tab) == (apps[i].status == tab) {
        EmptyTermMatches(apps[i].doctorName);
      }
      FilterSameTest(apps, (a: Application) => Keeps(a, "", tab), HasStatus(tab));
    }
  }

  /** With an empty search and the "all" tab nothing is filtered out. */
  lemma NoFilterKeepsAll(apps: seq<Application>)
    ensures FilterApplications(apps, "", AllTab) == apps
  {
    forall i | 0 <= i < |apps| ensures Keeps(apps[i], "", AllTab) {
      EmptyTermMatches(apps[i].doctorName);
    }
    FilterAll(apps, (a: Application) => Keeps(a, "", AllTab));
  }

  /** `prev.map(app => app.id === id ? { ...app, status } : app)` */
  function WithStatusFor(apps: seq<Application>, id: string, status: string): (r: seq<Application>)
    ensures |r| == |apps|
    ensures forall i :: 0 <= i < |apps| ==>
      && r[i].(status := apps[i].status) == apps[i]
      && r[i].status == (if apps[i].id == id then status else apps[i].status)
  {
    if apps == [] then []
    else [if apps[0].id == id then apps[0].(status := status) else apps[0]] + WithStatusFor(apps[1..], id, status)
  }

  /** An id no application has changes nothing. */
  lemma {:induction false} UpdateOfAbsentId(apps: seq<Application>, id: string, status: string)
    requires forall i :: 0 <= i < |apps| ==> apps[i].id != id
    ensures WithStatusFor(apps, id, status) == apps
    decreases |apps|
  {
    if apps != [] {
      UpdateOfAbsentId(apps[1..], id, status);
    }
  }

  /** The first application's contribution to a status count, after the
      update, then the rest's. */
  lemma UpdateStep(apps: seq<Application>, id: string, status: string, t: string)
    requires apps != []
    ensures |WithStatus(WithStatusFor(apps, id, status), t)|
         == (if (if apps[0].id == id then status else apps[0].status) == t then 1 else 0)
          + |WithStatus(WithStatusFor(apps[1..], id, status), t)|
  {
    var r := WithStatusFor(apps, id, status);
    var h := if apps[0].id == id then apps[0].(status := status) else apps[0];
    assert r == [h] + WithStatusFor(apps[1..], id, status);
    assert r[1..] == WithStatusFor(apps[1..], id, status);
    FilterStep(r, HasStatus(t));
  }

  /** Updating the one application with the id moves it from its old
      status's tab to the new status's tab; every other tab count stays. */
  lemma {:induction false} UpdateMovesOneCount(apps: seq<Application>, k: nat, status: string, t: string)
    requires k < |apps|
    requires forall i :: 0 <= i < |apps| && i != k ==> apps[i].id != apps[k].id
    ensures |WithStatus(WithStatusFor(apps, apps[k].id, status), t)| + (if apps[k].status == t then 1 else 0)
         == |WithStatus(apps, t)| + (if status == t then 1 else 0)
    decreases |apps|
  {
    var id, tail := apps[k].id, apps[1..];
    UpdateStep(apps, id, status, t);
    FilterStep(apps, HasStatus(t));
    if k == 0 {
      forall i | 0 <= i < |tail| ensures tail[i].id != id {
        assert tail[i] == apps[i + 1];
      }
      UpdateOfAbsentId(tail, id, status);
    } else {
      assert apps[0].id != id;
      assert tail[k - 1] == apps[k];
      forall i | 0 <= i < |tail| && i != k - 1 ensures tail[i].id != tail[k - 1].id {
        assert tail[i] == apps[i + 1];
      }
      UpdateMovesOneCount(tail, k - 1, status, t);
    }
  }

  /** Only a super admin may approve or reject. */
  predicate Permitted(status: string, role: Role) {
    status !in FinalStatuses || role == SuperAdminRole
  }

  /** Every status the form offers is permitted to every role. */
  lemma FormStatusesPermitted(status: string, role: Role)
    requires status in FormStatuses
    ensures Permitted(status, role)
  {
  }

  /** The `updateDoctorStatus(applicationId, newStatus, userRole)` call. */
  datatype StatusRequest = StatusRequest(applicationId: string, status: string, role: Role)

  /** The page's state. */
  class ApplicationsPage {
    const userRole: Role
    var applications: seq<Application>
    var error: Option<string>
    var loading: bool
    var updatingStatus: bool
    var selectedAppId: string
    var newStatusToApply: string

    constructor(userRole: Role)
      ensures this.userRole == userRole && applications == [] && error.None? && loading && !updatingStatus
      ensures selectedAppId == "" && newStatusToApply == "new"
    {
      this.userRole := userRole;
      applications := [];
      error := None;
      loading := true;
      updatingStatus := false;
      selectedAppId := "";
      newStatusToApply := "new";
    }

    /** `loadDoctors`: `fetched` is the mapped list, or none when the fetch
        threw. */
    method LoadDoctors(fetched: Option<seq<Application>>)
      modifies this`applications, this`error, this`loading
      ensures !loading
      ensures fetched.Some? ==> applications == fetched.value && error.None?
      ensures fetched.None? ==> applications == old(applications) && error == Some(LoadFailedMessage)
    {
      loading := true;
      error := None;
      if fetched.Some? {
        applications := fetched.value;
      } else {
        error := Some(LoadFailedMessage);
      }
      loading := false;
    }

    /** `handleStatusUpdate`: approving or rejecting without the super-admin
        role only sets an error; otherwise the service is called (`service`
        is how that call ends) and, when it resolves, the application with
        the id takes the new status. */
    method HandleStatusUpdate(applicationId: string, newStatus: string, service: Call)
      returns (request: Option<StatusRequest>)
      modifies this`applications, this`error, this`updatingStatus
      ensures request.Some? <==> Permitted(newStatus, userRole)
      ensures !Permitted(newStatus, userRole) ==>
        && applications == old(applications) && error == Some(OnlySuperAdminsMessage)
        && updatingStatus == old(updatingStatus)
      ensures Permitted(newStatus, userRole) ==>
        && request == Some(StatusRequest(applicationId, newStatus, userRole))
        && !updatingStatus
        && (service.Resolved? ==>
              applications == WithStatusFor(old(applications), applicationId, newStatus) && error == old(error))
        && (service.Threw? ==>
              && applications == old(applications)
              && error == Some(if service.message.Some? then service.message.value else UpdateFailedMessage))
    {
      if newStatus in FinalStatuses && userRole != SuperAdminRole {
        error := Some(OnlySuperAdminsMessage);
        return None;
      }
      updatingStatus := true;
      request := Some(StatusRequest(applicationId, newStatus, userRole));
      if service.Resolved? {
        applications := WithStatusFor(applications, applicationId, newStatus);
      } else {
        error := Some(if service.message.Some? then service.message.value else UpdateFailedMessage);
      }
      updatingStatus := false;
    }

    /** `handleFormStatusUpdate`: with an application selected, update it to
        the chosen status (which every role may set) and reset the form. */
    method HandleFormStatusUpdate(service: Call) returns (request: Option<StatusRequest>)
      requires newStatusToApply in FormStatuses
      modifies this`applications, this`error, this`updatingStatus, this`selectedAppId, this`newStatusToApply
      ensures old(selectedAppId) == "" ==>
        && request.None? && applications == old(applications) && error == old(error)
        && updatingStatus == old(updatingStatus) && selectedAppId == old(selectedAppId) && newStatusToApply == old(newStatusToApply)
      ensures old(selectedAppId) != "" ==>
        && request == Some(StatusRequest(old(selectedAppId), old(newStatusToApply), userRole))
        && selectedAppId == "" && newStatusToApply == "new"
        && !updatingStatus
        && (service.Resolved? ==>
              && applications == WithStatusFor(old(applications), old(selectedAppId), old(newStatusToApply))
              && error == old(error))
        && (service.Threw? ==>
              && applications == old(applications)
              && error == Some(if service.message.Some? then service.message.value else UpdateFailedMessage))
    {
      request := None;
      if selectedAppId != "" {
        FormStatusesPermitted(newStatusToApply, userRole);
        request := HandleStatusUpdate(selectedAppId, newStatusToApply, service);
        selectedAppId := "";
        newStatusToApply := "new";
      }
    }
  }
}
