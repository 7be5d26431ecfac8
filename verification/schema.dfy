/**
 * The three tables of the store and their constraints: User, Project and Task
 * rows, the columns that refuse NULL, the column defaults, the unique email,
 * the auto-incremented ids, the foreign keys, and the cascading deletes along
 * User -> Project -> Task. Everything here is a value; the class that changes
 * the tables in place is in module Database.
 */
module Schema {
  import opened Wrappers

  /** A value handed to Model.create for one column: left out (undefined), null, or given. */
  datatype Field<+T> = Absent | Null | Given(value: T)

  /** Why the store refuses a row. */
  datatype DbError = NotNullViolation | UniqueViolation | ForeignKeyViolation

  datatype User = User(id: nat, username: string, email: string, password: string)

  /** A project; userId is NULL when the project was created without an owner. */
  datatype Project = Project(
    id: nat, title: string, description: Option<string>, status: Option<string>, userId: Option<nat>)

  /** A task; projectId is NULL when the task was created without a project. */
  datatype Task = Task(
    id: nat, title: string, description: Option<string>, completed: Option<bool>, projectId: Option<nat>)

  /** A project as the listing returns it, with its tasks nested. */
  datatype ProjectWithTasks = ProjectWithTasks(project: Project, tasks: seq<Task>)

  const DEFAULT_STATUS: string := "active"
  const DEFAULT_COMPLETED: bool := false

  /** The stored value of a nullable column without a default. */
  function Nullable<T>(f: Field<T>): Option<T>
  {
    if f.Given? then Some(f.value) else None
  }

  /** The stored value of a nullable column with a default: only a left-out value takes the default. */
  function Defaulted<T>(f: Field<T>, default: T): Option<T>
  {
    match f
    case Absent => Some(default)
    case Null => None
    case Given(v) => Some(v)
  }

  /** The User row Model.create builds, or the notNull violation it reports. */
  function NewUser(id: nat, username: Field<string>, email: Field<string>, password: Field<string>)
    : (r: Result<User, DbError>)
    ensures r.Success? <==> username.Given? && email.Given? && password.Given?
    ensures r.Failure? ==> r.error == NotNullViolation
    ensures r.Success? ==> r.value.id == id && r.value.username == username.value
                           && r.value.email == email.value && r.value.password == password.value
  {
    if username.Given? && email.Given? && password.Given?
    then Success(User(id, username.value, email.value, password.value))
    else Failure(NotNullViolation)
  }

  /** The Project row Model.create builds: title is required, status defaults to 'active'. */
  function NewProject(id: nat, title: Field<string>, description: Field<string>, status: Field<string>,
                      userId: Field<nat>): (r: Result<Project, DbError>)
    ensures r.Success? <==> title.Given?
    ensures r.Failure? ==> r.error == NotNullViolation
    ensures r.Success? ==> r.value.id == id && r.value.title == title.value
    ensures r.Success? && status.Absent? ==> r.value.status == Some(DEFAULT_STATUS)
    ensures r.Success? && status.Null? ==> r.value.status == None
    ensures r.Success? && status.Given? ==> r.value.status == Some(status.value)
    ensures r.Success? ==> r.value.description == Nullable(description) && r.value.userId == Nullable(userId)
  {
    if title.Given?
    then Success(Project(id, title.value, Nullable(description), Defaulted(status, DEFAULT_STATUS), Nullable(userId)))
    else Failure(NotNullViolation)
  }

  /** The Task row Model.create builds: title is required, completed defaults to false. */
  function NewTask(id: nat, title: Field<string>, description: Field<string>, completed: Field<bool>,
                   projectId: Field<nat>): (r: Result<Task, DbError>)
    ensures r.Success? <==> title.Given?
    ensures r.Failure? ==> r.error == NotNullViolation
    ensures r.Success? ==> r.value.id == id && r.value.title == title.value
    ensures r.Success? && completed.Absent? ==> r.value.completed == Some(DEFAULT_COMPLETED)
    ensures r.Success? && completed.Null? ==> r.value.completed == None
    ensures r.Success? && completed.Given? ==> r.value.completed == Some(completed.value)
    ensures r.Success? ==> r.value.description == Nullable(description) && r.value.projectId == Nullable(projectId)
  {
    if title.Given?
    then Success(Task(id, title.value, Nullable(description), Defaulted(completed, DEFAULT_COMPLETED), Nullable(projectId)))
    else Failure(NotNullViolation)
  }

  /** The whole store: each table keyed by id, and each table's next auto-increment value. */
  datatype Tables = Tables(
    users: map<nat, User>, projects: map<nat, Project>, tasks: map<nat, Task>,
    nextUserId: nat, nextProjectId: nat, nextTaskId: nat)

  function Empty(): Tables
  {
    Tables(map[], map[], map[], 1, 1, 1)
  }

  /** Every row sits under its own id, and ids run from 1 up to (not including) the table's counter. */
  ghost predicate IdsAssigned(t: Tables)
  {
    && 0 < t.nextUserId && 0 < t.nextProjectId && 0 < t.nextTaskId
    && (forall id :: id in t.users ==> 0 < id < t.nextUserId && t.users[id].id == id)
    && (forall id :: id in t.projects ==> 0 < id < t.nextProjectId && t.projects[id].id == id)
    && (forall id :: id in t.tasks ==> 0 < id < t.nextTaskId && t.tasks[id].id == id)
  }

  /** No two users share an email. */
  ghost predicate UniqueEmails(users: map<nat, User>)
  {
    forall i, j :: i in users && j in users && users[i].email == users[j].email ==> i == j
  }

  predicate EmailTaken(users: map<nat, User>, email: string)
  {
    exists id :: id in users && users[id].email == email
  }

  /** Every non-NULL foreign key names an existing row. */
  ghost predicate ForeignKeysResolve(t: Tables)
  {
    && (forall p :: p in t.projects && t.projects[p].userId.Some? ==> t.projects[p].userId.value in t.users)
    && (forall k :: k in t.tasks && t.tasks[k].projectId.Some? ==> t.tasks[k].projectId.value in t.projects)
  }

  ghost predicate Consistent(t: Tables)
  {
    IdsAssigned(t) && UniqueEmails(t.users) && ForeignKeysResolve(t)
  }

  lemma EmptyConsistent()
    ensures Consistent(Empty())
  {
  }

  // ---------------------------------------------------------------------
  // Queries: findAll({ where: { <foreign key>: owner } }) in id order
  // ---------------------------------------------------------------------

  function ProjectKey(p: Project): nat { p.id }
  function OwnerOf(p: Project): Option<nat> { p.userId }
  function TaskKey(t: Task): nat { t.id }
  function ProjectOf(t: Task): Option<nat> { t.projectId }

  /** The ids below n of the rows whose foreign key (read by parent) is owner, in ascending order. */
  function ChildIds<R>(rows: map<nat, R>, parent: R -> Option<nat>, owner: nat, n: nat): seq<nat>
  {
    if n == 0 then []
    else ChildIds(rows, parent, owner, n - 1)
         + (if n - 1 in rows && parent(rows[n - 1]) == Some(owner) then [n - 1] else [])
  }

  lemma {:induction false} ChildIdsMembers<R>(rows: map<nat, R>, parent: R -> Option<nat>, owner: nat, n: nat, x: nat)
    ensures x in ChildIds(rows, parent, owner, n) <==> x < n && x in rows && parent(rows[x]) == Some(owner)
  {
    if n > 0 {
      ChildIdsMembers(rows, parent, owner, n - 1, x);
    }
  }

  lemma {:induction false} ChildIdsAscending<R>(rows: map<nat, R>, parent: R -> Option<nat>, owner: nat, n: nat)
    ensures forall i :: 0 <= i < |ChildIds(rows, parent, owner, n)| ==> ChildIds(rows, parent, owner, n)[i] < n
    ensures forall i, j :: 0 <= i < j < |ChildIds(rows, parent, owner, n)| ==>
              ChildIds(rows, parent, owner, n)[i] < ChildIds(rows, parent, owner, n)[j]
  {
    if n > 0 {
      ChildIdsAscending(rows, parent, owner, n - 1);
      var prev := ChildIds(rows, parent, owner, n - 1);
      var ids := ChildIds(rows, parent, owner, n);
      assert ids == prev || ids == prev + [n - 1];
      assert forall i :: 0 <= i < |prev| ==> ids[i] == prev[i];
    }
  }

  /** rs holds the rows with the given ids, in that order. */
  ghost predicate RowsAt<R>(rs: seq<R>, rows: map<nat, R>, ids: seq<nat>)
  {
    |rs| == |ids| && forall i :: 0 <= i < |ids| ==> ids[i] in rows && rs[i] == rows[ids[i]]
  }

  /**
   * rs is exactly the rows whose foreign key is owner: each is a stored row
   * with that owner, every such row is listed, and the list is in ascending id order
   * (so no row is listed twice).
   */
  ghost predicate ExactChildren<R>(rs: seq<R>, rows: map<nat, R>, key: R -> nat, parent: R -> Option<nat>, owner: nat)
  {
    && (forall i :: 0 <= i < |rs| ==> key(rs[i]) in rows && rows[key(rs[i])] == rs[i] && parent(rs[i]) == Some(owner))
    && (forall k :: k in rows && parent(rows[k]) == Some(owner) ==> exists i :: 0 <= i < |rs| && key(rs[i]) == k)
    && (forall i, j :: 0 <= i < j < |rs| ==> key(rs[i]) < key(rs[j]))
  }

  /** Scanning the ids below the counter in order yields exactly the children of owner. */
  lemma ScanIsExact<R>(rs: seq<R>, rows: map<nat, R>, key: R -> nat, parent: R -> Option<nat>, owner: nat, n: nat)
    requires forall k :: k in rows ==> k < n && key(rows[k]) == k
    requires RowsAt(rs, rows, ChildIds(rows, parent, owner, n))
    ensures ExactChildren(rs, rows, key, parent, owner)
  {
    var ids := ChildIds(rows, parent, owner, n);
    ChildIdsAscending(rows, parent, owner, n);
    forall i | 0 <= i < |rs|
      ensures key(rs[i]) in rows && rows[key(rs[i])] == rs[i] && parent(rs[i]) == Some(owner)
    {
      ChildIdsMembers(rows, parent, owner, n, ids[i]);
    }
    forall k | k in rows && parent(rows[k]) == Some(owner)
      ensures exists i :: 0 <= i < |rs| && key(rs[i]) == k
    {
      ChildIdsMembers(rows, parent, owner, n, k);
      var i :| 0 <= i < |ids| && ids[i] == k;
      assert key(rs[i]) == k;
    }
  }

  /** The projects of a listing, without their tasks. */
  ghost function Heads(items: seq<ProjectWithTasks>): seq<Project>
  {
    seq(|items|, i requires 0 <= i < |items| => items[i].project)
  }

  // ---------------------------------------------------------------------
  // Cascading deletes: onDelete 'CASCADE' on User -> Project -> Task
  // ---------------------------------------------------------------------

  function OwnedProjects(projects: map<nat, Project>, uid: nat): set<nat>
  {
    set p | p in projects && projects[p].userId == Some(uid)
  }

  function TasksUnder(tasks: map<nat, Task>, pids: set<nat>): set<nat>
  {
    set k | k in tasks && tasks[k].projectId.Some? && tasks[k].projectId.value in pids
  }

  /** Deleting the projects pids also deletes every task whose projectId is one of them. */
  function DeleteProjectsCascade(t: Tables, pids: set<nat>): Tables
  {
    t.(projects := t.projects - pids, tasks := t.tasks - TasksUnder(t.tasks, pids))
  }

  /** Deleting project pid also deletes every task whose projectId is pid. */
  function DeleteProjectCascade(t: Tables, pid: nat): Tables
  {
    DeleteProjectsCascade(t, {pid})
  }

  /** Deleting user uid also deletes every project whose userId is uid, and every task of those projects. */
  function DeleteUserCascade(t: Tables, uid: nat): Tables
  {
    DeleteProjectsCascade(t, OwnedProjects(t.projects, uid)).(users := t.users - {uid})
  }

  /** Cascading the deletes of projects one at a time is cascading the delete of all of them. */
  lemma DeleteProjectsStep(t: Tables, done: set<nat>, p: nat)
    ensures DeleteProjectCascade(DeleteProjectsCascade(t, done), p) == DeleteProjectsCascade(t, done + {p})
  {
  }

  lemma DeleteProjectCascadeConsistent(t: Tables, pid: nat)
    requires Consistent(t)
    ensures Consistent(DeleteProjectCascade(t, pid))
  {
  }

  lemma DeleteUserCascadeConsistent(t: Tables, uid: nat)
    requires Consistent(t)
    ensures Consistent(DeleteUserCascade(t, uid))
  {
  }

  /** After deleting uid, uid owns no project and every other user's projects are those it had. */
  lemma {:induction false} DeleteUserCascadeListing(t: Tables, uid: nat, v: nat, n: nat)
    ensures ChildIds(DeleteUserCascade(t, uid).projects, OwnerOf, v, n)
            == if v == uid then [] else ChildIds(t.projects, OwnerOf, v, n)
  {
    if n > 0 {
      DeleteUserCascadeListing(t, uid, v, n - 1);
    }
  }

  /** After deleting pid, no task is listed under it and every other project keeps its tasks. */
  lemma {:induction false} DeleteProjectCascadeListing(t: Tables, pid: nat, q: nat, n: nat)
    ensures ChildIds(DeleteProjectCascade(t, pid).tasks, ProjectOf, q, n)
            == if q == pid then [] else ChildIds(t.tasks, ProjectOf, q, n)
  {
    if n > 0 {
      DeleteProjectCascadeListing(t, pid, q, n - 1);
    }
  }
}
