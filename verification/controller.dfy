/**
 * The rules the `Controller` of index.js applies before it creates a project
 * or a task: what input is accepted and which id the new record gets.
 */
module Controller {
  import opened Wrappers
  import opened Records
  import opened JsString
  import opened ProjectTree
  import opened Data

  /** The add-project button: a project is created only when the title is not blank after
      trimming; it keeps the title as typed and takes the current project count as id. */
  function ProjectFromInput(title: string, projectCount: nat): (r: Option<Project>)
    ensures r.Some? <==> !Blank(title)
    ensures r.Some? ==> r.value.title == title && r.value.id == projectCount && r.value.todos == []
  {
    TrimEmptyIffBlank(title);
    if Trim(title) != "" then Some(NewProject(title, projectCount)) else None
  }

  /** The add-task button: a task is created only when its title is not blank after trimming
      and its due date is not empty (the date is not trimmed); it takes the current project's
      task count as id and starts out not done. */
  function TodoFromInput(title: string, desc: string, dueDate: string, priority: string,
                         todoCount: nat): (r: Option<Todo>)
    ensures r.Some? <==> !Blank(title) && dueDate != []
    ensures r.Some? ==> r.value.title == title && r.value.desc == desc && r.value.dueDate == dueDate
    ensures r.Some? ==> r.value.priority == priority && r.value.id == todoCount && !r.value.doneStatus
  {
    TrimEmptyIffBlank(title);
    if Trim(title) != "" && dueDate != "" then Some(NewTodo(title, desc, dueDate, priority, todoCount))
    else None
  }

  /** The add-task handler: validate, then hand the new task to `Data.addTodo` for the current
      project, which appends and saves; a rejected input changes nothing. */
  method SubmitTodo(data: Store, currentProjectIndex: nat, title: string, desc: string,
                    dueDate: string, priority: string) returns (added: bool)
    requires currentProjectIndex < |data.projects|
    modifies data
    ensures added <==> !Blank(title) && dueDate != []
    ensures added ==> data.Saved()
    ensures added ==> data.projects == WithTodos(old(data.projects), currentProjectIndex,
      old(data.projects)[currentProjectIndex].todos
        + [NewTodo(title, desc, dueDate, priority, |old(data.projects)[currentProjectIndex].todos|)])
    ensures !added ==> data.projects == old(data.projects) && data.stored == old(data.stored)
  {
    var newTodo := TodoFromInput(title, desc, dueDate, priority, |data.projects[currentProjectIndex].todos|);
    added := newTodo.Some?;
    if added {
      data.AddTodo(currentProjectIndex, newTodo.value);
    }
  }

  /** Creating projects only through the add-project rule keeps every id equal to its position. */
  lemma AcceptedProjectKeepsPositionalIds(ps: seq<Project>, title: string)
    requires ProjectIdsArePositions(ps)
    requires !Blank(title)
    ensures ProjectFromInput(title, |ps|).Some?
    ensures ProjectIdsArePositions(ps + [ProjectFromInput(title, |ps|).value])
  {
  }

  /** Likewise for tasks created through the add-task rule. */
  lemma AcceptedTodoKeepsPositionalIds(ts: seq<Todo>, title: string, desc: string,
                                      dueDate: string, priority: string)
    requires TodoIdsArePositions(ts)
    requires !Blank(title) && dueDate != []
    ensures TodoFromInput(title, desc, dueDate, priority, |ts|).Some?
    ensures TodoIdsArePositions(ts + [TodoFromInput(title, desc, dueDate, priority, |ts|).value])
  {
  }

  /** From the default state, adding "Work" through the add-project rule gives
      `[{Project 1, 0, []}, {Work, 1, []}]`. */
  lemma AddWorkToDefault()
    ensures var ps := Load(None);
            var q := ProjectFromInput("Work", |ps|);
            q.Some? && ps + [q.value] == [Project("Project 1", 0, []), Project("Work", 1, [])]
  {
    var ps := Load(None);
    assert |ps| == 1;
    var work := "Work";
    assert !IsTrimmable(work[0]);
    var q := ProjectFromInput(work, 1);
    assert q.Some? && q.value == Project("Work", 1, []);
  }
}
