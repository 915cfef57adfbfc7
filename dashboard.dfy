/** The admin dashboard (src/controllers/dashboard.js), admin-only
    (src/routes/dashboardRoutes.js). */
module Dashboard {
  import opened Common
  import opened UserModel
  import P = ProjectModel
  import R = RequestModel
  import opened Db

  /** The users `countDocuments({ role })` counts. There is no `isDeleted`
      filter, so soft-deleted users are counted too. */
  function WithRole(users: map<Id, User>, role: Role): set<Id> {
    set id | id in users && users[id].role == role
  }

  function ProjectsIn(projects: map<Id, P.Project>, s: P.ProjectStatus): set<Id> {
    set id | id in projects && projects[id].status == s
  }

  function PendingIds(requests: map<Id, R.ServiceRequest>): set<Id> {
    set id | id in requests && requests[id].status == R.Pending
  }

  /** The statuses that occur in some project. */
  function StatusesOf(projects: map<Id, P.Project>): set<P.ProjectStatus> {
    set id | id in projects :: projects[id].status
  }

  /** The `$group` stage on `status`: one group per status some project has,
      holding the number of projects with it. No group is empty. */
  function GroupByStatus(projects: map<Id, P.Project>): (g: map<P.ProjectStatus, nat>)
    ensures forall s :: s in g <==> ProjectsIn(projects, s) != {}
    ensures forall s :: s in g ==> g[s] == |ProjectsIn(projects, s)| && g[s] >= 1
  {
    assert forall s :: s in StatusesOf(projects) <==> ProjectsIn(projects, s) != {} by {
      forall s
        ensures s in StatusesOf(projects) <==> ProjectsIn(projects, s) != {}
      {
        if ProjectsIn(projects, s) != {} {
          var id :| id in ProjectsIn(projects, s);
          assert projects[id].status == s;
        }
        if s in StatusesOf(projects) {
          var id :| id in projects && projects[id].status == s;
          assert id in ProjectsIn(projects, s);
        }
      }
    }
    map s | s in StatusesOf(projects) :: |ProjectsIn(projects, s)|
  }

  /** The sum of the group counts; a status with no group counts 0. */
  function GroupTotal(g: map<P.ProjectStatus, nat>): nat {
    (if P.Pending in g then g[P.Pending] else 0)
    + (if P.InProgress in g then g[P.InProgress] else 0)
    + (if P.Completed in g then g[P.Completed] else 0)
    + (if P.Stopped in g then g[P.Stopped] else 0)
  }

  datatype DashboardStats = DashboardStats(
    totalEmployees: nat,
    totalClients: nat,
    totalProjects: nat,
    totalServices: nat,
    pendingRequests: nat,
    projectsByStatus: map<P.ProjectStatus, nat>)

  /** GET /api/dashboard: the totals are the sizes of the collections, the
      pending count is the number of requests still pending, and the status
      groups split the projects. */
  function GetDashboardStats(st: State): (d: DashboardStats)
    ensures d.totalProjects == |st.projects| && d.totalServices == |st.services|
    ensures d.totalEmployees + d.totalClients + |WithRole(st.users, Admin)| == |st.users|
    ensures d.totalEmployees == |WithRole(st.users, Employee)| && d.totalClients == |WithRole(st.users, Client)|
    ensures d.pendingRequests == |PendingIds(st.requests)| <= |st.requests|
    ensures d.projectsByStatus == GroupByStatus(st.projects)
    ensures GroupTotal(d.projectsByStatus) == d.totalProjects
  {
    RolesPartitionUsers(st.users);
    StatusGroupsPartitionProjects(st.projects);
    assert PendingIds(st.requests) <= st.requests.Keys;
    CardinalityMonotone(PendingIds(st.requests), st.requests.Keys);
    DashboardStats(
      |WithRole(st.users, Employee)|,
      |WithRole(st.users, Client)|,
      |st.projects|,
      |st.services|,
      |PendingIds(st.requests)|,
      GroupByStatus(st.projects))
  }

  lemma CardinalityMonotone(a: set<Id>, b: set<Id>)
    requires a <= b
    ensures |a| <= |b|
  {
    assert b == a + (b - a);
  }

  /** Every user has exactly one of the three roles. */
  lemma RolesPartitionUsers(users: map<Id, User>)
    ensures |WithRole(users, Admin)| + |WithRole(users, Employee)| + |WithRole(users, Client)| == |users|
  {
    var a, e, c := WithRole(users, Admin), WithRole(users, Employee), WithRole(users, Client);
    assert a * e == {} && (a + e) * c == {};
    assert a + e + c == users.Keys;
  }

  lemma DisjointUnion(a: set<Id>, b: set<Id>)
    requires a * b == {}
    ensures |a + b| == |a| + |b|
  {
  }

  /** A status without a group has no project, so each group count is the size
      of its status class whether or not the group is present. */
  lemma GroupCounts(projects: map<Id, P.Project>)
    ensures GroupTotal(GroupByStatus(projects)) ==
      |ProjectsIn(projects, P.Pending)| + |ProjectsIn(projects, P.InProgress)|
      + |ProjectsIn(projects, P.Completed)| + |ProjectsIn(projects, P.Stopped)|
  {
    var g := GroupByStatus(projects);
    forall s: P.ProjectStatus
      ensures (if s in g then g[s] else 0) == |ProjectsIn(projects, s)|
    {
      if s !in g {
        assert ProjectsIn(projects, s) == {};
      }
    }
  }

  /** Every project falls in exactly one status group. */
  lemma StatusGroupsPartitionProjects(projects: map<Id, P.Project>)
    ensures GroupTotal(GroupByStatus(projects)) == |projects|
  {
    GroupCounts(projects);
    var p, i, c, s := ProjectsIn(projects, P.Pending), ProjectsIn(projects, P.InProgress),
                      ProjectsIn(projects, P.Completed), ProjectsIn(projects, P.Stopped);
    assert p * i == {};
    DisjointUnion(p, i);
    assert (p + i) * c == {};
    DisjointUnion(p + i, c);
    assert (p + i + c) * s == {};
    DisjointUnion(p + i + c, s);
    StatusClassesCover(projects);
  }

  /** Every project has one of the four statuses. */
  lemma StatusClassesCover(projects: map<Id, P.Project>)
    ensures ProjectsIn(projects, P.Pending) + ProjectsIn(projects, P.InProgress)
      + ProjectsIn(projects, P.Completed) + ProjectsIn(projects, P.Stopped) == projects.Keys
  {
    forall id | id in projects
      ensures id in ProjectsIn(projects, projects[id].status)
    {
    }
  }

  /** Soft-deleting a user (setting `isDeleted`) leaves every figure of the
      dashboard as it was: the role counts do not filter on it. */
  lemma SoftDeleteKeepsStats(st: State, id: Id)
    requires id in st.users
    ensures GetDashboardStats(st.(users := st.users[id := st.users[id].(isDeleted := true)])) == GetDashboardStats(st)
  {
    var users' := st.users[id := st.users[id].(isDeleted := true)];
    assert WithRole(users', Employee) == WithRole(st.users, Employee);
    assert WithRole(users', Client) == WithRole(st.users, Client);
  }

  /** Deciding a pending request takes one off the pending count. */
  lemma DecisionLowersPending(requests: map<Id, R.ServiceRequest>, id: Id, s: R.RequestStatus)
    requires id in requests && requests[id].status == R.Pending && s != R.Pending
    ensures |PendingIds(requests[id := requests[id].(status := s)])| + 1 == |PendingIds(requests)|
  {
    assert PendingIds(requests[id := requests[id].(status := s)]) == PendingIds(requests) - {id};
  }
}
