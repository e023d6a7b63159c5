/** The task dashboard page: the list of the current page's tasks as fetched
    from the server, the search box and status filter applied to it locally,
    the pager, the create form with its validation, and the local list updates
    made after a status change, an edit or a delete succeeds on the server.
    Network calls are parameters: `ok` says whether the server answered with a
    2xx status, and the created row is an `Option`. */
module Dashboard {
  import opened Wrappers
  import opened Seqs
  import opened Text
  import opened Schema

  /** A task as the dashboard holds it, one row of the server's JSON. Its text
      fields are strings: the filter calls `toLowerCase` on them. */
  datatype Row = Row(id: int, title: string, description: string, status: string, dueDate: string)

  /** The create form `newTask`. */
  datatype NewTask = NewTask(title: string, description: string, dueDate: string, status: string)

  /** The create form's `errors`, one message per input; `''` shows nothing. */
  datatype TaskErrors = TaskErrors(title: string, description: string, dueDate: string)

  /** The inputs of the create form. */
  datatype NewTaskField = TitleInput | DescriptionInput | DueDateInput | StatusInput

  const BlankTask: NewTask := NewTask("", "", "", "Pending")
  const NoErrors: TaskErrors := TaskErrors("", "", "")

  /** The options of the "Items per page" selector. */
  const PageSizes: set<int> := {4, 6, 8, 10}

  /** The title or the description contains the query, ignoring case. */
  predicate MatchesSearch(t: Row, query: string) {
    Contains(ToLower(t.title), ToLower(query)) || Contains(ToLower(t.description), ToLower(query))
  }

  predicate MatchesStatus(t: Row, statusFilter: string) {
    statusFilter == "All" || t.status == statusFilter
  }

  /** `filteredTasks`: the rows the table shows. */
  function FilteredTasks(tasks: seq<Row>, query: string, statusFilter: string): (r: seq<Row>)
    ensures forall t :: t in r <==> t in tasks && MatchesSearch(t, query) && MatchesStatus(t, statusFilter)
    ensures Subsequence(r, tasks)
  {
    Filter(tasks, t => MatchesSearch(t, query) && MatchesStatus(t, statusFilter))
  }

  /** With an empty search and the filter `'All'` the table shows every row. */
  lemma NoFilterShowsAll(tasks: seq<Row>)
    ensures FilteredTasks(tasks, "", "All") == tasks
  {
    forall i | 0 <= i < |tasks| ensures MatchesSearch(tasks[i], "") {
      assert ToLower("") == [];
      assert [] <= ToLower(tasks[i].title);
    }
    FilterAll(tasks, t => MatchesSearch(t, "") && MatchesStatus(t, "All"));
  }

  /** A query in capitals finds the same rows as the same query in lower case. */
  lemma SearchIgnoresCase(t: Row, query: string)
    ensures MatchesSearch(t, query) <==> MatchesSearch(t, ToLower(query))
  {
    LowerIdempotent(query);
  }

  lemma LowerIdempotent(s: string)
    ensures ToLower(ToLower(s)) == ToLower(s)
  {
    assert forall i :: 0 <= i < |s| ==> LowerChar(LowerChar(s[i])) == LowerChar(s[i]);
  }

  /** `tasks.map(task => task.id === id ? { ...task, status } : task)`. */
  function WithStatus(tasks: seq<Row>, id: int, status: string): (r: seq<Row>)
    ensures |r| == |tasks|
    ensures forall i :: 0 <= i < |tasks| ==> r[i].id == tasks[i].id
    ensures forall i :: 0 <= i < |tasks| && tasks[i].id != id ==> r[i] == tasks[i]
    ensures forall i :: 0 <= i < |tasks| && tasks[i].id == id ==> r[i] == tasks[i].(status := status)
  {
    Map(tasks, (t: Row) => if t.id == id then t.(status := status) else t)
  }

  /** `tasks.map(task => task.id === edited.id ? edited : task)`. */
  function WithEdited(tasks: seq<Row>, edited: Row): (r: seq<Row>)
    ensures |r| == |tasks|
    ensures forall i :: 0 <= i < |tasks| ==> r[i].id == tasks[i].id
    ensures forall i :: 0 <= i < |tasks| && tasks[i].id != edited.id ==> r[i] == tasks[i]
    ensures forall i :: 0 <= i < |tasks| && tasks[i].id == edited.id ==> r[i] == edited
  {
    Map(tasks, (t: Row) => if t.id == edited.id then edited else t)
  }

  /** `tasks.filter(task => task.id !== id)`. */
  function WithoutId(tasks: seq<Row>, id: int): (r: seq<Row>)
    ensures forall t :: t in r <==> t in tasks && t.id != id
    ensures Subsequence(r, tasks)
  {
    Filter(tasks, (t: Row) => t.id != id)
  }

  /** The create form's error messages: one exactly for each empty field. */
  function RequiredErrors(form: NewTask): (e: TaskErrors)
    ensures e.title != "" <==> form.title == ""
    ensures e.description != "" <==> form.description == ""
    ensures e.dueDate != "" <==> form.dueDate == ""
    ensures e.title != "" ==> e.title == "Title is required"
    ensures e.description != "" ==> e.description == "Description is required"
    ensures e.dueDate != "" ==> e.dueDate == "Due date is required"
  {
    TaskErrors(
      if form.title == "" then "Title is required" else "",
      if form.description == "" then "Description is required" else "",
      if form.dueDate == "" then "Due date is required" else "")
  }

  predicate FormComplete(form: NewTask) {
    form.title != "" && form.description != "" && form.dueDate != ""
  }

  /** The component's whole state, for stating what a handler leaves unchanged. */
  datatype DashboardState = DashboardState(
    tasks: seq<Row>,
    searchQuery: string,
    statusFilter: string,
    isCreating: bool,
    newTask: NewTask,
    selectedTask: Option<Row>,
    isEditing: bool,
    editedTask: Option<Row>,
    errors: TaskErrors,
    currentPage: int,
    perPage: int,
    totalTasks: int,
    totalPages: int)

  /** The `TaskDashboard` component: one field per `useState`. */
  class TaskDashboard {
    var tasks: seq<Row>
    var searchQuery: string
    var statusFilter: string
    var isCreating: bool
    var newTask: NewTask
    var selectedTask: Option<Row>
    var isEditing: bool
    var editedTask: Option<Row>
    var errors: TaskErrors
    var currentPage: int
    var perPage: int
    var totalTasks: int
    var totalPages: int

    /** The page is never below 1, the page size is one the selector offers,
        and the create form's status is one its drop-down offers. */
    ghost predicate Valid()
      reads this
    {
      currentPage >= 1 && perPage in PageSizes && IsStatus(newTask.status)
    }

    function State(): DashboardState
      reads this
    {
      DashboardState(tasks, searchQuery, statusFilter, isCreating, newTask, selectedTask,
        isEditing, editedTask, errors, currentPage, perPage, totalTasks, totalPages)
    }

    /** The initial `useState` values. */
    constructor ()
      ensures Valid()
      ensures State() == DashboardState([], "", "All", false, BlankTask, None, false, None, NoErrors, 1, 10, 0, 1)
    {
      tasks, searchQuery, statusFilter := [], "", "All";
      isCreating, newTask, selectedTask := false, BlankTask, None;
      isEditing, editedTask, errors := false, None, NoErrors;
      currentPage, perPage, totalTasks, totalPages := 1, 10, 0, 1;
    }

    /** The success branch of `fetchTasks`: the server's page replaces the list. */
    method ReceivePage(rows: seq<Row>, total: int, pages: int)
      requires Valid()
      modifies this
      ensures Valid()
      ensures State() == old(State()).(tasks := rows, totalTasks := total, totalPages := pages)
    {
      tasks, totalTasks, totalPages := rows, total, pages;
    }

    method HandleSearchChange(query: string)
      requires Valid()
      modifies this
      ensures Valid()
      ensures State() == old(State()).(searchQuery := query)
    {
      searchQuery := query;
    }

    /** Choosing a status filter goes back to page 1. */
    method HandleStatusFilterChange(filter: string)
      requires Valid()
      modifies this
      ensures Valid()
      ensures State() == old(State()).(statusFilter := filter, currentPage := 1)
    {
      statusFilter := filter;
      currentPage := 1;
    }

    /** The "Items per page" selector: a new page size goes back to page 1. */
    method HandlePerPageChange(size: int)
      requires Valid() && size in PageSizes
      modifies this
      ensures Valid()
      ensures State() == old(State()).(perPage := size, currentPage := 1)
    {
      perPage := size;
      currentPage := 1;
    }

    /** Moves to `newPage` only when it lies between 1 and `totalPages`. */
    method HandlePageChange(newPage: int)
      requires Valid()
      modifies this
      ensures Valid()
      ensures 1 <= newPage <= old(totalPages) ==> State() == old(State()).(currentPage := newPage)
      ensures !(1 <= newPage <= old(totalPages)) ==> State() == old(State())
    {
      if newPage >= 1 && newPage <= totalPages {
        currentPage := newPage;
      }
    }

    /** The "Create Task" button. */
    method OpenCreateForm()
      requires Valid()
      modifies this
      ensures Valid()
      ensures State() == old(State()).(isCreating := true)
    {
      isCreating := true;
    }

    /** Typing into one input of the create form; the status input is a
        drop-down of the three statuses. */
    method HandleNewTaskInput(field: NewTaskField, value: string)
      requires Valid() && (field == StatusInput ==> IsStatus(value))
      modifies this
      ensures Valid()
      ensures State() == old(State()).(newTask :=
        match field
        case TitleInput => old(newTask).(title := value)
        case DescriptionInput => old(newTask).(description := value)
        case DueDateInput => old(newTask).(dueDate := value)
        case StatusInput => old(newTask).(status := value))
    {
      match field
      case TitleInput => newTask := newTask.(title := value);
      case DescriptionInput => newTask := newTask.(description := value);
      case DueDateInput => newTask := newTask.(dueDate := value);
      case StatusInput => newTask := newTask.(status := value);
    }

    /** A blank form (status `'Pending'`) and no error messages. */
    method ResetTaskForm()
      requires Valid()
      modifies this
      ensures Valid()
      ensures State() == old(State()).(newTask := BlankTask, errors := NoErrors)
    {
      newTask := BlankTask;
      errors := NoErrors;
    }

    method HandleCancelCreate()
      requires Valid()
      modifies this
      ensures Valid()
      ensures State() == old(State()).(newTask := BlankTask, errors := NoErrors, isCreating := false)
    {
      ResetTaskForm();
      isCreating := false;
    }

    /** "Save" in the create form. Nothing is sent unless title, description
        and due date are all filled in; then `created` is the server's new row,
        or `None` when the request failed. */
    method HandleCreateTask(created: Option<Row>) returns (sent: bool)
      requires Valid()
      modifies this
      ensures Valid()
      ensures sent <==> FormComplete(old(newTask))
      ensures !sent ==> State() == old(State()).(errors := RequiredErrors(old(newTask)))
      ensures sent && created.None? ==> State() == old(State()).(errors := NoErrors)
      ensures sent && created.Some? ==> State() == old(State()).(
        tasks := old(tasks) + [created.value], isCreating := false, newTask := BlankTask, errors := NoErrors)
    {
      errors := NoErrors;
      if newTask.title == "" || newTask.description == "" || newTask.dueDate == "" {
        errors := RequiredErrors(newTask);
        return false;
      }
      sent := true;
      if created.Some? {
        tasks := tasks + [created.value];
        isCreating := false;
        ResetTaskForm();
      }
    }

    /** The status drop-down of row `i`. The row object is changed in place
        before the request, so it shows the new status even when the server
        refuses; on success every row with that id gets the new status. The
        result is the body that is sent. */
    method HandleStatusChange(i: nat, newStatus: string, ok: bool) returns (body: Row)
      requires Valid() && i < |tasks|
      modifies this
      ensures Valid()
      ensures body == old(tasks)[i].(status := newStatus)
      ensures ok ==> State() == old(State()).(tasks := WithStatus(old(tasks), old(tasks)[i].id, newStatus))
      ensures !ok ==> State() == old(State()).(tasks := old(tasks)[i := body])
    {
      body := tasks[i].(status := newStatus);
      tasks := tasks[i := body];
      if ok {
        tasks := WithStatus(tasks, body.id, newStatus);
        assert tasks == WithStatus(old(tasks), body.id, newStatus);
      }
    }

    method HandleTaskClick(t: Row)
      requires Valid()
      modifies this
      ensures Valid()
      ensures State() == old(State()).(selectedTask := Some(t), isEditing := false)
    {
      selectedTask := Some(t);
      isEditing := false;
    }

    method HandleEditClick(t: Row)
      requires Valid()
      modifies this
      ensures Valid()
      ensures State() == old(State()).(editedTask := Some(t), isEditing := true)
    {
      editedTask := Some(t);
      isEditing := true;
    }

    /** Typing into one input of the edit form, which is shown only while a
        task is being edited. */
    method HandleEditInput(field: NewTaskField, value: string)
      requires Valid() && editedTask.Some?
      modifies this
      ensures Valid()
      ensures State() == old(State()).(editedTask := Some(
        match field
        case TitleInput => old(editedTask).value.(title := value)
        case DescriptionInput => old(editedTask).value.(description := value)
        case DueDateInput => old(editedTask).value.(dueDate := value)
        case StatusInput => old(editedTask).value.(status := value)))
    {
      var t := editedTask.value;
      match field
      case TitleInput => editedTask := Some(t.(title := value));
      case DescriptionInput => editedTask := Some(t.(description := value));
      case DueDateInput => editedTask := Some(t.(dueDate := value));
      case StatusInput => editedTask := Some(t.(status := value));
    }

    /** "Close" in the edit form. */
    method CloseEditor()
      requires Valid()
      modifies this
      ensures Valid()
      ensures State() == old(State()).(isEditing := false)
    {
      isEditing := false;
    }

    /** "Save Changes" in the edit form, shown only while a task is being edited. */
    method HandleEditSave(ok: bool)
      requires Valid() && editedTask.Some?
      modifies this
      ensures Valid()
      ensures ok ==> State() == old(State()).(
        tasks := WithEdited(old(tasks), old(editedTask).value), isEditing := false, selectedTask := old(editedTask))
      ensures !ok ==> State() == old(State())
    {
      if ok {
        tasks := WithEdited(tasks, editedTask.value);
        isEditing := false;
        selectedTask := editedTask;
      }
    }

    /** The delete button of the row with id `taskId`. When the page held a
        single row and is not the first, the dashboard steps back a page. */
    method HandleDeleteTask(taskId: int, ok: bool)
      requires Valid()
      modifies this
      ensures Valid()
      ensures ok ==> State() == old(State()).(
        tasks := WithoutId(old(tasks), taskId), selectedTask := None, isEditing := false,
        currentPage := if |old(tasks)| == 1 && old(currentPage) > 1 then old(currentPage) - 1 else old(currentPage))
      ensures !ok ==> State() == old(State())
    {
      if ok {
        var page := if |tasks| == 1 && currentPage > 1 then currentPage - 1 else currentPage;
        tasks, selectedTask, isEditing, currentPage := WithoutId(tasks, taskId), None, false, page;
      }
    }
  }
}
