/** The two tables the server creates at start-up, as rows in `id` order. */
module Schema {
  import opened Wrappers
  import opened Crypto

  /** A row of `users`. The password column holds the bcrypt digest. */
  datatype User = User(id: nat, name: string, email: string, password: Digest, createdAt: nat)

  /** A row of `tasks`. `description` and `due_date` are nullable columns;
      `user_id` is the owner. */
  datatype Task = Task(
    id: nat,
    title: string,
    description: Option<string>,
    status: string,
    dueDate: Option<string>,
    userId: nat)

  /** The CHECK constraint on `tasks.status`. */
  predicate IsStatus(s: string) {
    s == "Pending" || s == "In Progress" || s == "Completed"
  }

  /** Some row of `users` has this name. */
  predicate NameTaken(users: seq<User>, name: string) {
    exists i :: 0 <= i < |users| && users[i].name == name
  }

  /** Some row of `users` has this email (the column is UNIQUE). */
  predicate EmailTaken(users: seq<User>, email: string) {
    exists i :: 0 <= i < |users| && users[i].email == email
  }

  /** What the `users` table keeps when it is written only through `/signup`:
      ids below the AUTOINCREMENT counter and increasing in row order, names
      distinct (checked by the handler) and emails distinct (the UNIQUE
      constraint). */
  ghost predicate UsersValid(users: seq<User>, nextId: nat) {
    && (forall i :: 0 <= i < |users| ==> users[i].id < nextId)
    && (forall i, j :: 0 <= i < j < |users| ==> users[i].id < users[j].id)
    && (forall i, j :: 0 <= i < j < |users| ==> users[i].name != users[j].name)
    && (forall i, j :: 0 <= i < j < |users| ==> users[i].email != users[j].email)
  }

  /** What the `tasks` table keeps: ids below the AUTOINCREMENT counter and
      increasing in row order, every status allowed by the CHECK constraint. */
  ghost predicate TasksValid(tasks: seq<Task>, nextId: nat) {
    && (forall i :: 0 <= i < |tasks| ==> tasks[i].id < nextId && IsStatus(tasks[i].status))
    && (forall i, j :: 0 <= i < j < |tasks| ==> tasks[i].id < tasks[j].id)
  }
}
