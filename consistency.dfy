/** How the browser's checks line up with the server's: what a page lets
    through is never refused by the server for the same reason. */
module CrossChecks {
  import opened Wrappers
  import opened Text
  import opened Schema
  import opened Crypto
  import opened Server
  import opened Dashboard
  import SignUpForm

  /** Any password the sign-up page accepts (six characters or more) passes
      the server's length rule (five or more). */
  lemma SignUpPasswordPassesServer(d: SignUpForm.SignUpData)
    requires SignUpForm.SignUpErrors(d) == map[]
    ensures !PasswordTooShort(d.password)
  {
    assert |d.password| >= SignUpForm.MinLength;
  }

  /** The server's rule is looser: every five-character password is refused
      by the page but accepted by the server. */
  lemma FiveCharactersServerOnly(d: SignUpForm.SignUpData)
    requires |d.password| == 5
    ensures !PasswordTooShort(d.password)
    ensures SignUpForm.Password in SignUpForm.SignUpErrors(d)
  {
  }

  /** A form the sign-up page posts is never answered "password too short":
      it is refused only for a taken name or e-mail, and otherwise the user
      is added. */
  method SignUpFromPage(db: Store, d: SignUpForm.SignUpData, salt: nat, now: nat) returns (r: SignupOutcome)
    requires db.Valid() && SignUpForm.SignUpErrors(d) == map[]
    modifies db
    ensures r != ShortPassword
    ensures db.Valid() && db.tasks == old(db.tasks) && db.nextTaskId == old(db.nextTaskId)
    ensures r == SignedUp ==>
      db.users == old(db.users) + [User(old(db.nextUserId), d.name, d.email, Hash(d.password, salt), now)]
    ensures r != SignedUp ==> db.users == old(db.users) && db.nextUserId == old(db.nextUserId)
  {
    SignUpPasswordPassesServer(d);
    r := db.Signup(d.name, d.email, d.password, salt, now);
  }

  /** The JSON body the create form posts: all four keys present. The
      server's required-field check passes exactly when the form's title and
      status are non-empty, and a complete form supplies every column. */
  function CreateBody(form: NewTask): (body: TaskBody)
    ensures body.title == Some(form.title) && body.status == Some(form.status)
    ensures body.description == Some(form.description) && body.dueDate == Some(form.dueDate)
    ensures Truthy(body.title) && Truthy(body.status) <==> form.title != [] && form.status != []
    ensures FormComplete(form) ==> Truthy(body.title) && Truthy(body.description) && Truthy(body.dueDate)
  {
    TaskBody(Some(form.title), Some(form.description), Some(form.status), Some(form.dueDate))
  }

  /** The create form of a dashboard, once title, description and due date
      are filled in, is stored by the server: the status is always one the
      drop-down offers, which the table accepts. */
  method CreateFromDashboard(db: Store, page: TaskDashboard, userId: nat) returns (r: TaskOutcome)
    requires db.Valid() && page.Valid() && FormComplete(page.newTask)
    modifies db
    ensures r.Created?
    ensures r.task.title == page.newTask.title && r.task.status == page.newTask.status && r.task.userId == userId
    ensures r.task.id == old(db.nextTaskId)
    ensures db.Valid() && db.tasks == old(db.tasks) + [r.task] && db.users == old(db.users)
  {
    r := db.CreateTask(userId, CreateBody(page.newTask));
  }

  /** The JSON body the status drop-down posts: the row with its new status.
      The server's required-field check passes exactly when the row's title
      and the new status are non-empty, and merging it into any stored task
      then gives that task the row's title and the new status. */
  function StatusBody(row: Row, newStatus: string): (body: TaskBody)
    ensures body.title == Some(row.title) && body.status == Some(newStatus)
    ensures Truthy(body.title) && Truthy(body.status) <==> row.title != [] && newStatus != []
    ensures forall t :: row.title != [] && newStatus != [] ==>
      Merge(t, body).title == row.title && Merge(t, body).status == newStatus && Merge(t, body).id == t.id
  {
    TaskBody(Some(row.title), Some(row.description), Some(newStatus), Some(row.dueDate))
  }

  /** Changing the status of one's own titled task from the drop-down always
      succeeds on the server, and the stored task then has the new status. */
  method StatusChangeFromDashboard(db: Store, row: Row, newStatus: string, userId: nat) returns (r: TaskOutcome)
    requires db.Valid() && row.title != [] && IsStatus(newStatus)
    requires FindOwnedTask(db.tasks, row.id, userId).Some?
    modifies db
    ensures r == Updated
    ensures var i := FindOwnedTask(old(db.tasks), row.id, userId).value;
      i < |db.tasks| && db.tasks[i].status == newStatus
    ensures var i := FindOwnedTask(old(db.tasks), row.id, userId).value;
      db.tasks == old(db.tasks)[i := Merge(old(db.tasks)[i], StatusBody(row, newStatus))]
    ensures db.Valid() && db.users == old(db.users)
  {
    r := db.UpdateTask(userId, row.id, StatusBody(row, newStatus));
  }
}
