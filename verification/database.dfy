/**
 * The store as the server sees it: three tables updated in place by inserts
 * (Model.create) and cascading deletes (Model.destroy), and read by the two
 * queries the server issues (User.findOne by email, Project.findAll by owner
 * with the tasks included).
 */
module Database {
  import opened Wrappers
  import opened Schema

  class Store {
    var users: map<nat, User>
    var projects: map<nat, Project>
    var tasks: map<nat, Task>
    var nextUserId: nat
    var nextProjectId: nat
    var nextTaskId: nat

    function State(): Tables
      reads this
    {
      Tables(users, projects, tasks, nextUserId, nextProjectId, nextTaskId)
    }

    ghost predicate Valid()
      reads this
    {
      Consistent(State())
    }

    constructor ()
      ensures Valid() && State() == Empty()
    {
      users, projects, tasks := map[], map[], map[];
      nextUserId, nextProjectId, nextTaskId := 1, 1, 1;
      EmptyConsistent();
    }

    /** User.findOne({ where: { email } }): the one user with that email, if any. */
    method FindUserByEmail(email: string) returns (r: Option<User>)
      requires Valid()
      ensures r.None? <==> !EmailTaken(users, email)
      ensures r.Some? ==> r.value.id in users && users[r.value.id] == r.value && r.value.email == email
      ensures r.Some? ==> forall id :: id in users && users[id].email == email ==> id == r.value.id
    {
      var id := 0;
      while id < nextUserId
        invariant id <= nextUserId
        invariant forall j :: j in users && j < id ==> users[j].email != email
      {
        if id in users && users[id].email == email {
          return Some(users[id]);
        }
        id := id + 1;
      }
      return None;
    }

    /** User.create: refuses a NULL column, then a taken email; otherwise adds one row under a fresh id. */
    method InsertUser(username: Field<string>, email: Field<string>, password: Field<string>)
      returns (r: Result<User, DbError>)
      requires Valid()
      modifies this
      ensures Valid()
      ensures NewUser(old(nextUserId), username, email, password).Failure? ==>
                r == Failure(NotNullViolation) && State() == old(State())
      ensures NewUser(old(nextUserId), username, email, password).Success? && EmailTaken(old(users), email.value) ==>
                r == Failure(UniqueViolation) && State() == old(State())
      ensures r.Success? <==> NewUser(old(nextUserId), username, email, password).Success?
                              && !EmailTaken(old(users), email.value)
      ensures r.Success? ==>
                && r == NewUser(old(nextUserId), username, email, password)
                && r.value.id !in old(users)
                && users == old(users)[r.value.id := r.value]
                && nextUserId == old(nextUserId) + 1
                && projects == old(projects) && tasks == old(tasks)
                && nextProjectId == old(nextProjectId) && nextTaskId == old(nextTaskId)
    {
      var row := NewUser(nextUserId, username, email, password);
      if row.Failure? {
        return Failure(NotNullViolation);
      }
      var existing := FindUserByEmail(email.value);
      if existing.Some? {
        return Failure(UniqueViolation);
      }
      users := users[nextUserId := row.value];
      nextUserId := nextUserId + 1;
      r := row;
    }

    /** Project.create: refuses a NULL title, then an owner that does not exist; status defaults to 'active'. */
    method InsertProject(title: Field<string>, description: Field<string>, status: Field<string>,
                         userId: Field<nat>) returns (r: Result<Project, DbError>)
      requires Valid()
      modifies this
      ensures Valid()
      ensures !title.Given? ==> r == Failure(NotNullViolation) && State() == old(State())
      ensures title.Given? && userId.Given? && userId.value !in old(users) ==>
                r == Failure(ForeignKeyViolation) && State() == old(State())
      ensures r.Success? <==> title.Given? && (userId.Given? ==> userId.value in old(users))
      ensures r.Success? ==>
                && r == NewProject(old(nextProjectId), title, description, status, userId)
                && r.value.id !in old(projects)
                && projects == old(projects)[r.value.id := r.value]
                && nextProjectId == old(nextProjectId) + 1
                && users == old(users) && tasks == old(tasks)
                && nextUserId == old(nextUserId) && nextTaskId == old(nextTaskId)
    {
      var row := NewProject(nextProjectId, title, description, status, userId);
      if row.Failure? {
        return Failure(NotNullViolation);
      }
      if userId.Given? && userId.value !in users {
        return Failure(ForeignKeyViolation);
      }
      projects := projects[nextProjectId := row.value];
      nextProjectId := nextProjectId + 1;
      r := row;
    }

    /** Task.create: refuses a NULL title, then a project that does not exist; completed defaults to false. */
    method InsertTask(title: Field<string>, description: Field<string>, completed: Field<bool>,
                      projectId: Field<nat>) returns (r: Result<Task, DbError>)
      requires Valid()
      modifies this
      ensures Valid()
      ensures !title.Given? ==> r == Failure(NotNullViolation) && State() == old(State())
      ensures title.Given? && projectId.Given? && projectId.value !in old(projects) ==>
                r == Failure(ForeignKeyViolation) && State() == old(State())
      ensures r.Success? <==> title.Given? && (projectId.Given? ==> projectId.value in old(projects))
      ensures r.Success? ==>
                && r == NewTask(old(nextTaskId), title, description, completed, projectId)
                && r.value.id !in old(tasks)
                && tasks == old(tasks)[r.value.id := r.value]
                && nextTaskId == old(nextTaskId) + 1
                && users == old(users) && projects == old(projects)
                && nextUserId == old(nextUserId) && nextProjectId == old(nextProjectId)
    {
      var row := NewTask(nextTaskId, title, description, completed, projectId);
      if row.Failure? {
        return Failure(NotNullViolation);
      }
      if projectId.Given? && projectId.value !in projects {
        return Failure(ForeignKeyViolation);
      }
      tasks := tasks[nextTaskId := row.value];
      nextTaskId := nextTaskId + 1;
      r := row;
    }

    /** Project.destroy: removes the project and, by the cascade, each of its tasks in turn. */
    method DeleteProject(pid: nat)
      requires Valid()
      modifies this
      ensures Valid()
      ensures State() == DeleteProjectCascade(old(State()), pid)
    {
      var doomed := TasksUnder(tasks, {pid});
      var pending := doomed;
      while pending != {}
        invariant pending <= doomed
        invariant tasks == old(tasks) - (doomed - pending)
        invariant users == old(users) && projects == old(projects)
        invariant nextUserId == old(nextUserId) && nextProjectId == old(nextProjectId)
        invariant nextTaskId == old(nextTaskId)
        decreases pending
      {
        var k :| k in pending;
        tasks := tasks - {k};
        pending := pending - {k};
      }
      projects := projects - {pid};
      DeleteProjectCascadeConsistent(old(State()), pid);
    }

    /** Destroys the projects pids one at a time, each with its tasks. */
    method DeleteProjects(pids: set<nat>)
      requires Valid()
      modifies this
      ensures Valid()
      ensures State() == DeleteProjectsCascade(old(State()), pids)
    {
      var pending := pids;
      while pending != {}
        invariant Valid()
        invariant pending <= pids
        invariant State() == DeleteProjectsCascade(old(State()), pids - pending)
        decreases pending
      {
        var p :| p in pending;
        DeleteProject(p);
        DeleteProjectsStep(old(State()), pids - pending, p);
        assert pids - (pending - {p}) == (pids - pending) + {p};
        pending := pending - {p};
      }
    }

    /** User.destroy: removes every project the user owns, with its tasks, then the user. */
    method DeleteUser(uid: nat)
      requires Valid()
      modifies this
      ensures Valid()
      ensures State() == DeleteUserCascade(old(State()), uid)
    {
      DeleteProjects(OwnedProjects(projects, uid));
      users := users - {uid};
      DeleteUserCascadeConsistent(old(State()), uid);
    }

    /** Task.findAll({ where: { projectId: pid } }) in id order. */
    method FindTasksOfProject(pid: nat) returns (ts: seq<Task>)
      requires Valid()
      ensures ExactChildren(ts, tasks, TaskKey, ProjectOf, pid)
    {
      var k := 0;
      ts := [];
      ghost var ids: seq<nat> := [];
      while k < nextTaskId
        invariant k <= nextTaskId
        invariant ids == ChildIds(tasks, ProjectOf, pid, k)
        invariant RowsAt(ts, tasks, ids)
      {
        if k in tasks && tasks[k].projectId == Some(pid) {
          ts := ts + [tasks[k]];
          ids := ids + [k];
        }
        k := k + 1;
      }
      ScanIsExact(ts, tasks, TaskKey, ProjectOf, pid, nextTaskId);
    }

    /** Project.findAll({ where: { userId: uid }, include: Task }) in id order. */
    method FindProjectsByOwner(uid: nat) returns (items: seq<ProjectWithTasks>)
      requires Valid()
      ensures RowsAt(Heads(items), projects, ChildIds(projects, OwnerOf, uid, nextProjectId))
      ensures ExactChildren(Heads(items), projects, ProjectKey, OwnerOf, uid)
      ensures forall i :: 0 <= i < |items| ==>
                ExactChildren(items[i].tasks, tasks, TaskKey, ProjectOf, items[i].project.id)
    {
      var k := 0;
      items := [];
      ghost var ids: seq<nat> := [];
      while k < nextProjectId
        invariant k <= nextProjectId
        invariant ids == ChildIds(projects, OwnerOf, uid, k)
        invariant RowsAt(Heads(items), projects, ids)
        invariant forall i :: 0 <= i < |items| ==>
                    ExactChildren(items[i].tasks, tasks, TaskKey, ProjectOf, items[i].project.id)
      {
        if k in projects && projects[k].userId == Some(uid) {
          var ts := FindTasksOfProject(k);
          items := items + [ProjectWithTasks(projects[k], ts)];
          ids := ids + [k];
        }
        k := k + 1;
      }
      ScanIsExact(Heads(items), projects, ProjectKey, OwnerOf, uid, nextProjectId);
    }
  }
}
