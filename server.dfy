/** The route handlers of the server over its two tables: `/signup` and
    `/signin` on `users`, and the create, update and delete handlers on
    `tasks`. The handlers that change a table are methods of `Store`; sign-in
    only reads, so it is a function of the `users` rows (the listing handler is
    in module Listing). Every task handler runs after `authenticateToken`
    (module Auth) and receives the `userId` it resolved. */
module Server {
  import opened Wrappers
  import opened Seqs
  import opened Text
  import opened Crypto
  import opened Auth
  import opened Schema

  /** `/signup` refuses passwords shorter than this. */
  const MinPasswordLength: nat := 5

  predicate PasswordTooShort(password: string) {
    |password| < MinPasswordLength
  }

  datatype SignupOutcome =
    | SignedUp       // 201 'User created successfully'
    | ShortPassword  // 400 'Password is too short'
    | UserExists     // 400 'User already exists'
    | SignupFailed   // 500 'Internal Server Error' (the insert violated a constraint)

  datatype SigninOutcome =
    | InvalidUser            // 400 'Invalid User'
    | InvalidPassword        // 400 'Invalid Password'
    | SignedIn(token: string) // 200 { token }

  /** The JSON body of `POST /tasks` and `PUT /tasks/:id`; an absent key is `None`. */
  datatype TaskBody = TaskBody(
    title: Option<string>,
    description: Option<string>,
    status: Option<string>,
    dueDate: Option<string>)

  datatype TaskOutcome =
    | MissingFields        // 400 'Title and status are required'
    | NotFound             // 404 'Task not found or unauthorized'
    | InternalError        // 500 'Internal Server Error' (the CHECK constraint failed)
    | Created(task: Task)  // 201 with the inserted row
    | Updated              // 200 'Task updated successfully'
    | Deleted              // 200 'Task deleted successfully'

  /** `SELECT * FROM users WHERE name = ?` with `db.get`: the first such row. */
  function FindUserByName(users: seq<User>, name: string): (r: Option<User>)
    ensures r.None? <==> !NameTaken(users, name)
    ensures r.Some? ==> exists i :: 0 <= i < |users| && users[i] == r.value && r.value.name == name
    decreases |users|
  {
    if users == [] then None
    else if users[0].name == name then Some(users[0])
    else
      var r := FindUserByName(users[1..], name);
      assert NameTaken(users[1..], name) ==> NameTaken(users, name);
      assert NameTaken(users, name) ==> NameTaken(users[1..], name) by {
        if NameTaken(users, name) {
          var i :| 0 <= i < |users| && users[i].name == name;
          assert users[1..][i - 1].name == name;
        }
      }
      if r.Some? then
        assert exists i :: 0 <= i < |users| && users[i] == r.value && r.value.name == name by {
          var i :| 0 <= i < |users[1..]| && users[1..][i] == r.value && r.value.name == name;
          assert users[i + 1] == r.value;
        }
        r
      else r
  }

  /** The `/signin` handler at clock time `now`. */
  function Signin(users: seq<User>, name: string, password: string, now: nat): (r: SigninOutcome)
    ensures r == InvalidUser <==> !NameTaken(users, name)
    ensures r == InvalidPassword ==> exists u :: u in users && u.name == name && !Compare(password, u.password)
    ensures r.SignedIn? ==> exists u :: (u in users && u.name == name && Compare(password, u.password) &&
      Verify(r.token, SecretKey, now) == Verified(Claims(u.id, now, now + Lifetime)))
  {
    match FindUserByName(users, name)
    case None => InvalidUser
    case Some(u) =>
      assert u in users && u.name == name;
      if !Compare(password, u.password) then InvalidPassword
      else
        var token := Sign(u.id, now, SecretKey);
        assert Verify(token, SecretKey, now) == Verified(Claims(u.id, now, now + Lifetime)) by {
          VerifySign(u.id, now, SecretKey, now);
        }
        SignedIn(token)
  }

  /** With names unique, sign-in under an existing name succeeds exactly when
      the password matches that user's digest. */
  lemma SigninIff(users: seq<User>, nextId: nat, i: nat, password: string, now: nat)
    requires UsersValid(users, nextId) && i < |users|
    ensures Signin(users, users[i].name, password, now).SignedIn? <==> Compare(password, users[i].password)
    ensures Signin(users, users[i].name, password, now) == InvalidPassword <==> !Compare(password, users[i].password)
  {
    var u := FindUserByName(users, users[i].name);
    var j :| 0 <= j < |users| && users[j] == u.value && u.value.name == users[i].name;
    assert i == j;
  }

  /** Right after a successful signup, signing in with the same name and
      password returns a token that lets the new user through the middleware
      for the next hour. */
  lemma SignupThenSignin(users: seq<User>, u: User, password: string, salt: nat, now: nat, later: nat)
    requires !NameTaken(users, u.name)
    requires u.password == Hash(password, salt)
    requires later < now + Lifetime
    ensures Signin(users + [u], u.name, password, now) == SignedIn(Sign(u.id, now, SecretKey))
    ensures Authenticate(Some("Bearer " + Sign(u.id, now, SecretKey)), later) == Authorized(u.id)
  {
    FindAppended(users, u);
    assert Authenticate(Some("Bearer " + Sign(u.id, now, SecretKey)), later) == Authorized(u.id) by {
      AuthenticateSigned(u.id, now, later);
    }
  }

  /** A name not yet taken finds the user appended under it. */
  lemma {:induction false} FindAppended(users: seq<User>, u: User)
    requires !NameTaken(users, u.name)
    ensures FindUserByName(users + [u], u.name) == Some(u)
    decreases |users|
  {
    if users == [] {
      assert users + [u] == [u];
    } else {
      assert (users + [u])[1..] == users[1..] + [u];
      FindAppended(users[1..], u);
    }
  }

  /** The row a `/tasks/:id` handler acts on: `WHERE id = ? AND user_id = ?`. */
  predicate OwnedBy(t: Task, taskId: int, userId: nat) {
    t.id == taskId && t.userId == userId
  }

  /** `SELECT * FROM tasks WHERE id = ? AND user_id = ?`: the position of the
      first row that has the id and belongs to the caller. A task that does
      not exist and a task of another user look the same. */
  function FindOwnedTask(tasks: seq<Task>, taskId: int, userId: nat): (r: Option<nat>)
    ensures r.Some? ==> r.value < |tasks| && OwnedBy(tasks[r.value], taskId, userId)
    ensures r.Some? ==> forall j :: 0 <= j < r.value ==> !OwnedBy(tasks[j], taskId, userId)
    ensures r.None? <==> forall j :: 0 <= j < |tasks| ==> !OwnedBy(tasks[j], taskId, userId)
    decreases |tasks|
  {
    if tasks == [] then None
    else if OwnedBy(tasks[0], taskId, userId) then Some(0)
    else
      match FindOwnedTask(tasks[1..], taskId, userId)
      case None => None
      case Some(k) => Some(k + 1)
  }

  /** A user never reaches a task that belongs to someone else. */
  lemma OthersTaskNotFound(tasks: seq<Task>, nextId: nat, i: nat, userId: nat)
    requires TasksValid(tasks, nextId) && i < |tasks|
    requires tasks[i].userId != userId
    ensures FindOwnedTask(tasks, tasks[i].id, userId).None?
  {
  }

  /** The `UPDATE` of `PUT /tasks/:id`: each column takes the supplied value
      if it is truthy and keeps its old value otherwise. */
  function Merge(t: Task, body: TaskBody): (r: Task)
    ensures r.id == t.id && r.userId == t.userId
    ensures Truthy(body.title) ==> r.title == body.title.value
    ensures !Truthy(body.title) ==> r.title == t.title
    ensures Truthy(body.description) ==> r.description == body.description
    ensures !Truthy(body.description) ==> r.description == t.description
    ensures Truthy(body.status) ==> r.status == body.status.value
    ensures !Truthy(body.status) ==> r.status == t.status
    ensures Truthy(body.dueDate) ==> r.dueDate == body.dueDate
    ensures !Truthy(body.dueDate) ==> r.dueDate == t.dueDate
  {
    t.(
      title := Or(body.title, Some(t.title)).value,
      description := Or(body.description, t.description),
      status := Or(body.status, Some(t.status)).value,
      dueDate := Or(body.dueDate, t.dueDate))
  }

  /** Sending the same update twice has the effect of sending it once. */
  lemma MergeIdempotent(t: Task, body: TaskBody)
    ensures Merge(Merge(t, body), body) == Merge(t, body)
  {
  }

  /** The `DELETE ... WHERE id = ? AND user_id = ?` on rows with distinct ids
      removes exactly the one row found. */
  lemma DeleteRemovesOne(tasks: seq<Task>, nextId: nat, taskId: int, userId: nat)
    requires TasksValid(tasks, nextId)
    requires FindOwnedTask(tasks, taskId, userId).Some?
    ensures var i := FindOwnedTask(tasks, taskId, userId).value;
      Filter(tasks, t => !OwnedBy(t, taskId, userId)) == tasks[..i] + tasks[i + 1..]
  {
    var i := FindOwnedTask(tasks, taskId, userId).value;
    var keep := t => !OwnedBy(t, taskId, userId);
    OnlyOneOwned(tasks, nextId, i, taskId, userId);
    assert forall j :: 0 <= j < |tasks| && j != i ==> keep(tasks[j]);
    FilterDropsOne(tasks, keep, i);
  }

  /** Ids are distinct, so at most one row matches `WHERE id = ? AND user_id = ?`. */
  lemma OnlyOneOwned(tasks: seq<Task>, nextId: nat, i: nat, taskId: int, userId: nat)
    requires TasksValid(tasks, nextId) && i < |tasks| && OwnedBy(tasks[i], taskId, userId)
    ensures forall j :: 0 <= j < |tasks| && j != i ==> !OwnedBy(tasks[j], taskId, userId)
  {
    forall j | 0 <= j < |tasks| && j != i ensures tasks[j].id != tasks[i].id {
      if j < i {
        assert tasks[j].id < tasks[i].id;
      } else {
        assert tasks[i].id < tasks[j].id;
      }
    }
  }

  /** Removing one row keeps the ids increasing. */
  lemma RemoveKeepsValid(tasks: seq<Task>, nextId: nat, i: nat)
    requires TasksValid(tasks, nextId) && i < |tasks|
    ensures TasksValid(tasks[..i] + tasks[i + 1..], nextId)
  {
    var r := tasks[..i] + tasks[i + 1..];
    assert forall j :: 0 <= j < |r| ==> r[j] == if j < i then tasks[j] else tasks[j + 1];
  }

  /** The users and tasks tables of the database. */
  class Store {
    var users: seq<User>
    var tasks: seq<Task>
    var nextUserId: nat
    var nextTaskId: nat

    ghost predicate Valid()
      reads this
    {
      UsersValid(users, nextUserId) && TasksValid(tasks, nextTaskId)
    }

    /** A fresh database: both tables empty, AUTOINCREMENT starting at 1. */
    constructor ()
      ensures Valid()
      ensures users == [] && tasks == [] && nextUserId == 1 && nextTaskId == 1
    {
      users, tasks := [], [];
      nextUserId, nextTaskId := 1, 1;
    }

    /** `POST /signup` with the random bcrypt salt and the clock as parameters.
        The name is checked by the handler; a duplicate email reaches the
        INSERT, violates `email UNIQUE` and becomes a 500. */
    method Signup(name: string, email: string, password: string, salt: nat, now: nat) returns (r: SignupOutcome)
      requires Valid()
      modifies this
      ensures Valid()
      ensures tasks == old(tasks) && nextTaskId == old(nextTaskId)
      ensures r == ShortPassword <==> PasswordTooShort(password)
      ensures r == UserExists <==> !PasswordTooShort(password) && NameTaken(old(users), name)
      ensures r == SignupFailed <==>
        !PasswordTooShort(password) && !NameTaken(old(users), name) && EmailTaken(old(users), email)
      ensures r == SignedUp ==>
        users == old(users) + [User(old(nextUserId), name, email, Hash(password, salt), now)] &&
        nextUserId == old(nextUserId) + 1
      ensures r != SignedUp ==> users == old(users) && nextUserId == old(nextUserId)
    {
      if PasswordTooShort(password) {
        return ShortPassword;
      }
      if FindUserByName(users, name).Some? {
        return UserExists;
      }
      var digest := Hash(password, salt);
      if EmailTaken(users, email) {
        return SignupFailed;
      }
      users := users + [User(nextUserId, name, email, digest, now)];
      nextUserId := nextUserId + 1;
      r := SignedUp;
    }

    /** `POST /tasks` for the caller `userId`. A status outside the three
        allowed values passes the handler's check and fails the CHECK
        constraint at the INSERT. */
    method CreateTask(userId: nat, body: TaskBody) returns (r: TaskOutcome)
      requires Valid()
      modifies this
      ensures Valid()
      ensures users == old(users) && nextUserId == old(nextUserId)
      ensures r.MissingFields? || r.InternalError? || r.Created?
      ensures r == MissingFields <==> !Truthy(body.title) || !Truthy(body.status)
      ensures r == InternalError <==> Truthy(body.title) && Truthy(body.status) && !IsStatus(body.status.value)
      ensures r.Created? ==>
        r.task == Task(old(nextTaskId), body.title.value, body.description, body.status.value, body.dueDate, userId) &&
        tasks == old(tasks) + [r.task] && nextTaskId == old(nextTaskId) + 1
      ensures !r.Created? ==> tasks == old(tasks) && nextTaskId == old(nextTaskId)
    {
      if !Truthy(body.title) || !Truthy(body.status) {
        return MissingFields;
      }
      if !IsStatus(body.status.value) {
        return InternalError;
      }
      var task := Task(nextTaskId, body.title.value, body.description, body.status.value, body.dueDate, userId);
      tasks := tasks + [task];
      nextTaskId := nextTaskId + 1;
      r := Created(task);
    }

    /** `PUT /tasks/:id` for the caller `userId`. */
    method UpdateTask(userId: nat, taskId: int, body: TaskBody) returns (r: TaskOutcome)
      requires Valid()
      modifies this
      ensures Valid()
      ensures users == old(users) && nextUserId == old(nextUserId) && nextTaskId == old(nextTaskId)
      ensures r.MissingFields? || r.NotFound? || r.InternalError? || r.Updated?
      ensures r == MissingFields <==> !Truthy(body.title) || !Truthy(body.status)
      ensures r == NotFound <==>
        Truthy(body.title) && Truthy(body.status) && FindOwnedTask(old(tasks), taskId, userId).None?
      ensures r == InternalError <==>
        Truthy(body.title) && Truthy(body.status) && FindOwnedTask(old(tasks), taskId, userId).Some? &&
        !IsStatus(body.status.value)
      ensures r == Updated ==>
        var i := FindOwnedTask(old(tasks), taskId, userId).value;
        tasks == old(tasks)[i := Merge(old(tasks)[i], body)]
      ensures r != Updated ==> tasks == old(tasks)
    {
      if !Truthy(body.title) || !Truthy(body.status) {
        return MissingFields;
      }
      var found := FindOwnedTask(tasks, taskId, userId);
      if found.None? {
        return NotFound;
      }
      var i := found.value;
      var merged := Merge(tasks[i], body);
      if !IsStatus(merged.status) {
        return InternalError;
      }
      tasks := tasks[i := merged];
      r := Updated;
    }

    /** `DELETE /tasks/:id` for the caller `userId`. */
    method DeleteTask(userId: nat, taskId: int) returns (r: TaskOutcome)
      requires Valid()
      modifies this
      ensures Valid()
      ensures users == old(users) && nextUserId == old(nextUserId) && nextTaskId == old(nextTaskId)
      ensures r.NotFound? || r.Deleted?
      ensures r == NotFound <==> FindOwnedTask(old(tasks), taskId, userId).None?
      ensures r == Deleted ==>
        var i := FindOwnedTask(old(tasks), taskId, userId).value;
        tasks == old(tasks)[..i] + old(tasks)[i + 1..]
      ensures r == NotFound ==> tasks == old(tasks)
      ensures forall t :: t in tasks <==> t in old(tasks) && !OwnedBy(t, taskId, userId)
    {
      var found := FindOwnedTask(tasks, taskId, userId);
      if found.None? {
        assert forall t :: t in tasks ==> !OwnedBy(t, taskId, userId);
        return NotFound;
      }
      var i := found.value;
      var rest := Filter(tasks, t => !OwnedBy(t, taskId, userId));
      assert rest == tasks[..i] + tasks[i + 1..] && TasksValid(rest, nextTaskId) by {
        DeleteRemovesOne(tasks, nextTaskId, taskId, userId);
        RemoveKeepsValid(tasks, nextTaskId, i);
      }
      tasks := rest;
      r := Deleted;
    }
  }

  /** A user's session, end to end: sign up, sign in, create a task, mark it
      completed, delete it; the token admits the user, each step succeeds,
      and afterwards the task's id is gone for update and delete. */
  method Session(salt: nat, now: nat) returns (signup: SignupOutcome, login: SigninOutcome, tasks: Lifecycle)
    ensures signup == SignedUp
    ensures login.SignedIn? && Authenticate(Some("Bearer " + login.token), now) == Authorized(1)
    ensures tasks.Succeeded()
  {
    var db := new Store();
    signup, login := FirstUser(db, salt, now);
    tasks := TaskLifecycle(db, 1);
  }

  /** The first user of an empty database signs up and signs in: 201, then a
      token the middleware admits as user 1. */
  method FirstUser(db: Store, salt: nat, now: nat) returns (signup: SignupOutcome, login: SigninOutcome)
    requires db.Valid() && db.users == [] && db.nextUserId == 1 && db.tasks == [] && db.nextTaskId == 1
    modifies db
    ensures db.Valid() && db.tasks == [] && db.nextTaskId == 1
    ensures signup == SignedUp
    ensures login.SignedIn? && Authenticate(Some("Bearer " + login.token), now) == Authorized(1)
  {
    var name, password := "alice", "secret1";
    signup := db.Signup(name, "alice@example.com", password, salt, now);
    var alice := User(1, name, "alice@example.com", Hash(password, salt), now);
    assert db.users == [] + [alice];
    login := Signin(db.users, name, password, now);
    assert login == SignedIn(Sign(1, now, SecretKey)) && Authenticate(Some("Bearer " + login.token), now) == Authorized(1) by {
      SignupThenSignin([], alice, password, salt, now, now);
    }
  }

  /** The replies to the four requests after the one that creates a task. */
  datatype Lifecycle = Lifecycle(created: TaskOutcome, completed: TaskOutcome, deleted: TaskOutcome,
                                 updateAfter: TaskOutcome, deleteAfter: TaskOutcome)
  {
    /** 201, 200, 200, then 404 twice. */
    predicate Succeeded() {
      created.Created? && completed == Updated && deleted == Deleted &&
      updateAfter == NotFound && deleteAfter == NotFound
    }
  }

  /** Create one task in an empty table, mark it completed, delete it, then
      try to update and delete it again. */
  method TaskLifecycle(db: Store, userId: nat) returns (r: Lifecycle)
    requires db.Valid() && db.tasks == [] && db.nextTaskId == 1
    modifies db
    ensures r.Succeeded() && r.created.task.id == 1 && r.created.task.userId == userId
    ensures db.Valid() && db.tasks == []
  {
    var c := db.CreateTask(userId, TaskBody(Some("t1"), Some("d"), Some("Pending"), Some("2025-01-01")));
    assert c.Created? && c.task.id == 1 && db.tasks == [c.task];
    var u := CompleteOnlyTask(db, userId);
    var d, again, gone := DeleteOnlyTask(db, userId);
    r := Lifecycle(c, u, d, again, gone);
  }

  /** Set the status of the caller's only, titled task to `'Completed'` by
      sending its title and the new status: the reply is 200 and only the
      status changes. */
  method CompleteOnlyTask(db: Store, userId: nat) returns (u: TaskOutcome)
    requires db.Valid() && |db.tasks| == 1 && db.tasks[0].userId == userId && db.tasks[0].title != []
    modifies db
    ensures u == Updated
    ensures db.Valid() && db.tasks == [old(db.tasks[0]).(status := "Completed")]
  {
    var t := db.tasks[0];
    u := db.UpdateTask(userId, t.id, TaskBody(Some(t.title), None, Some("Completed"), None));
    assert FindOwnedTask(old(db.tasks), t.id, userId) == Some(0);
  }

  /** Delete the caller's only task: the reply is 200 and the table is empty;
      afterwards an update and a delete of the same id get 404. */
  method DeleteOnlyTask(db: Store, userId: nat) returns (deleted: TaskOutcome, updateAfter: TaskOutcome, deleteAfter: TaskOutcome)
    requires db.Valid() && |db.tasks| == 1 && db.tasks[0].userId == userId
    modifies db
    ensures deleted == Deleted && updateAfter == NotFound && deleteAfter == NotFound
    ensures db.Valid() && db.tasks == []
  {
    var id := db.tasks[0].id;
    deleted := db.DeleteTask(userId, id);
    assert db.tasks == [];
    updateAfter := db.UpdateTask(userId, id, TaskBody(Some("t1"), None, Some("Pending"), None));
    deleteAfter := db.DeleteTask(userId, id);
  }
}
