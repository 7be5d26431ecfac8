# Task-management auth API: authentication, sessions and the three-table store

This project is a Dafny model of the core of a small Express/Sequelize backend. The core has two parts:

- **The store** (`database/setup.js`) has three tables: User, Project and Task.
  - Ids are auto-incremented.
  - A user's email is unique.
  - `username`, `email`, `password` and both `title` columns refuse NULL.
  - `status` defaults to `'active'` and `completed` to `false`.
  - Foreign keys run Project.userId → User and Task.projectId → Project.
  - Deletes cascade along User → Project → Task.

  Module `Schema` holds the rows, the table invariants (`Consistent`), the query specification (`ChildIds`) and the cascade as values. Class `Database.Store` updates the tables in place. Its methods are inserts, the two queries the server issues, and the cascading deletes, which remove dependent rows one by one in loops.
- **The authentication state machine** (`server.js`) is class `Server.AuthServer`. It holds the store and one client's session slot: empty, or the `{id, email, username}` snapshot written at login. Its members are:
  - `Register`, `Login` and `Logout`;
  - the `isAuthenticated` guard (`Guard`);
  - the guarded `GET /api/projects` listing (`ListProjects`).

  Every handler returns a `Response`, which is a status and a JSON body (`{message}`, `{error}` or the project array).

Some supporting modelling decisions:

- **Request fields and `Model.create` inputs** are `Field<T>`: `Absent` (JavaScript `undefined`), `Null`, or `Given(v)`.
  - The registration check follows JavaScript truthiness: a string field counts only when it is given and not empty.
  - Sequelize applies a column default only to a left-out value. An explicit `null` is stored as NULL.
- **Password hashing** is module `Bcrypt`.
  - A digest has bcrypt's layout: the prefix `$2a$10$` (cost 10, as the registration handler passes), a 22-character salt, then a checksum of the plaintext.
  - The salt, which bcrypt draws at random, is a parameter.
  - The checksum is an injective stand-in for the one-way function.
  - `Verify(p, Hash(s, p))` holds for every salt. This is the round trip the server relies on.
- **Queries** are scans in ascending id order.
  - `User.findOne({where: {email}})` is `Store.FindUserByEmail`.
  - `Project.findAll({where: {userId}, include: Task})` is `Store.FindProjectsByOwner`.
  - The result is specified by `Schema.ChildIds`, and `Schema.ExactChildren` states what it means: exactly the rows with that foreign key, each once, in id order.

Two consequences of the code, which the model keeps:

- **Foreign keys are nullable.** `hasMany`/`belongsTo` declare no `allowNull: false` on `userId` or `projectId` (database/setup.js:111-116), so a project may have no owner and a task no project. `Consistent` requires only that every non-NULL foreign key names an existing row.
- **Only registration rejects empty strings.** The schema refuses only NULL (database/setup.js:34-46), so `Store.InsertUser` accepts empty strings. Only the registration handler's presence check rejects them (server.js:54-56).

## Model

| member | source | states |
|---|---|---|
| Bcrypt.Hash | server.js:63 | The stored digest is never the plaintext: it is longer by the prefix and the 22-character salt. |
| Bcrypt.VerifyHash | server.js:93 | `compare(q, hash(p))` holds exactly when `q == p`. The round trip succeeds, and every other password is rejected. |
| Bcrypt.HashIsSalted | server.js:63 | Hashing the same password with two different salts gives two different digests. |
| Schema.NewUser | database/setup.js:26-49 | A User row is built only when username, email and password are all non-NULL. Otherwise the result is a notNull violation. The row carries the given values under the given id. |
| Schema.NewProject | database/setup.js:54-78 | A Project needs a non-NULL title. A left-out status becomes `'active'`, an explicit null stays NULL, and a given status is kept. Description and userId are stored as given or as NULL. |
| Schema.NewTask | database/setup.js:83-104 | A Task needs a non-NULL title. A left-out `completed` becomes `false`, an explicit null stays NULL, and a given value is kept. Description and projectId are stored as given or as NULL. |
| Schema.ChildIdsMembers | server.js:128-131 | An id is in the owner scan exactly when it is below the counter, its row exists, and the row's foreign key equals the owner. This is the `where: { userId }` filter, in both directions. |
| Schema.ChildIdsAscending | server.js:128-131 | The scan lists ids below the counter in strictly ascending order, so no row appears twice. |
| Schema.ScanIsExact | server.js:128-131 | The rows at the scanned ids are exactly the rows with that foreign key: each is a stored row of that owner, every such row is present, and they are in id order. |
| Schema.DeleteProjectCascadeConsistent | database/setup.js:115-116 | Deleting a project together with its tasks keeps every table invariant, including that every task's projectId names an existing project. |
| Schema.DeleteUserCascadeConsistent | database/setup.js:111-116 | Deleting a user together with its projects and their tasks keeps every table invariant: unique emails, assigned ids, and resolving foreign keys. |
| Schema.DeleteUserCascadeListing | database/setup.js:111 | After the cascade, the deleted user owns no project, and every other user's projects are exactly those it had before. |
| Schema.DeleteProjectCascadeListing | database/setup.js:115 | After the cascade, the deleted project has no task, and every other project's tasks are exactly those it had before. |
| Database.Store.FindUserByEmail | server.js:58 | Returns a user exactly when some user has that email. The returned row is the stored row with that email, and it is the only one. |
| Database.Store.InsertUser | database/setup.js:26-49 | NULL columns are refused, then a taken email is refused; both leave the store unchanged. Otherwise exactly one row is added under an id no user had, the counter advances, and the other tables are unchanged. Email uniqueness and the other invariants are preserved. |
| Database.Store.InsertProject | database/setup.js:54-78 | A NULL title is refused, then an owner id that names no user is refused; both leave the store unchanged. Otherwise exactly one row is added under a fresh id, with the defaults applied, and the invariants are preserved. |
| Database.Store.InsertTask | database/setup.js:83-104 | A NULL title is refused, then a project id that names no project is refused; both leave the store unchanged. Otherwise exactly one row is added under a fresh id, with `completed` defaulting to false, and the invariants are preserved. |
| Database.Store.DeleteProject | database/setup.js:115 | The new tables are the old ones without the project and without every task whose projectId is that project. The invariants are preserved. |
| Schema.DeleteProjectsStep | database/setup.js:115-116 | Cascading the deletes of a set of projects and then of one more project gives the same tables as cascading the delete of the whole enlarged set, so project deletes compose. |
| Database.Store.DeleteProjects | database/setup.js:111-116 | Destroying a set of projects one by one leaves the old tables without those projects and without every task of theirs. The invariants are preserved. |
| Database.Store.DeleteUser | database/setup.js:111 | The new tables are the old ones without the user, without every project whose userId is the user, and without every task of those projects. Nothing else changes, and the invariants are preserved. |
| Database.Store.FindTasksOfProject | server.js:130 | Returns exactly the project's tasks, each a stored row, in id order. |
| Database.Store.FindProjectsByOwner | server.js:128-131 | Returns exactly the owner's projects in id order, each with exactly its own tasks. |
| Server.AuthServer.Guard | server.js:31-37 | With an empty session, the guard fails with 401 "Unauthorized. Please log in.". Otherwise it passes on exactly the session snapshot. |
| Server.AuthServer.Register | server.js:50-71 | A missing or empty field gives 400 "All fields are required.", and a taken email gives 400 "Email already exists."; both leave the store unchanged. Otherwise the result is 200, exactly one user is added under a fresh id with the given username and email and `Hash(salt, password)` (never the plaintext), nothing else changes, and emails stay unique. |
| Server.AuthServer.Login | server.js:83-109 | A null email, or a given email no user has, gives 401 "Invalid email.". A left-out email, or a known email with a missing or null password, gives 500 "Server error during login." (the lookup or the compare throws). A failed `Verify` gives 401 "Incorrect password.". All of these leave the session unchanged. Otherwise the session becomes exactly `{id, email, username}` of the user with that email, and the result is 200 "Login successful.". The store is not modified. |
| Server.AuthServer.Logout | server.js:116-120 | Always 200 "Logged out successfully.", with the session empty whatever it held, so a second logout gives the same state and response. |
| Server.AuthServer.ListProjects | server.js:126-133 | With an empty session, the result is 401 and no query runs. Otherwise the result is 200 with exactly the session user's projects (each the stored row, with `userId` equal to the session id, in id order), each with exactly its own tasks. |
| Server.SignUp | server.js:50-71 | Registering alice gives 200, and registering her email again gives 400 "Email already exists.". The store then holds just alice, with a hashed password, and the session is empty. |
| Server.SignUpAndLogIn | server.js:50-104 | After that sign-up, logging in with a wrong password gives 401 "Incorrect password.", and logging in with the right one gives 200. The store then holds just alice, with a hashed password, and the session holds her snapshot. |
| Server.Walkthrough | server.js:116-133 | After that sign-up, the listing is 200 with no projects. Logging out twice gives 200 both times, and the listing is then refused with 401. |

## Left out

- Express routing, JSON serialisation and the session cookie. These are I/O plumbing. A handler's result is the `Response` value, and one client's session slot is modelled.
- `GET /test` (server.js:42-44). It is a constant health-check reply with no state.
- The 500 replies from the `catch` blocks (server.js:73-76, 106-109, 135-138) when the database itself fails at run time. In `Register`, the insert is instead proved to succeed after the handler's own checks. In `Login`, the 500 reply is modelled only for the two throws the request itself causes: a left-out email (Sequelize refuses an `undefined` where value) and a missing password for a known email (`bcrypt.compare` refuses it).
- The order of the listing and of each project's nested tasks. `findAll` is called without an `order` option (server.js:128-131), so the database may return rows in any order; ascending id order is the model's own choice.
- Non-string JSON values in request bodies (numbers, objects, booleans). Their JavaScript truthiness is not modelled; fields are strings, left out, or null.
- Session expiry after `maxAge` (server.js:24). It is wall-clock time handled by express-session; its effect on the session slot would be the same as `Logout`'s.
- Sessions of other clients and concurrent requests, including the race between the uniqueness check and the insert. The model is sequential; the store's unique constraint is checked again in `Store.InsertUser`.
- bcrypt's internals: the cost factor's work, random salt generation and one-wayness. The stand-in checksum only reverses the plaintext.
- Bcrypt.VerifyHash: states `Verify(q, Hash(s, p)) <==> q == p` exactly, which is stronger than real bcrypt. bcrypt compares only the first 72 bytes of the UTF-8 password, and a collision is possible (with negligible probability).
- Sequelize reports every failing column in one validation error. `DbError` names only the kind of violation.
- The `dueDate` column and the `createdAt`/`updatedAt` timestamps. No logic depends on them.
- Creating the `database` folder, `dotenv`, the database file name, `db.sync`/`syncDB` and console logging (database/setup.js:8-21, 124-133; server.js:144-147). These are file-system and library side effects; the empty store is `Store`'s constructor.
