/**
 * The two record shapes the store holds, the factories that build them and the
 * state the store starts from when nothing has been stored yet (index.js, the
 * `Data` module).
 */
module Records {

  /** A task. `priority` is the raw value of the priority control; the code never constrains it. */
  datatype Todo = Todo(
    title: string,
    desc: string,
    dueDate: string,
    priority: string,
    doneStatus: bool,
    id: nat)

  /** A named, ordered list of tasks. `id` is the position the project had when it was created. */
  datatype Project = Project(title: string, id: nat, todos: seq<Todo>)

  /** `Data.Project(title, id)`: a project with no tasks yet. */
  function NewProject(title: string, id: nat): (p: Project)
    ensures p.title == title && p.id == id
    ensures p.todos == []
  {
    Project(title, id, [])
  }

  /** `Data.Todo(title, desc, dueDate, priority, id)`: a task that starts out not done. */
  function NewTodo(title: string, desc: string, dueDate: string, priority: string, id: nat): (t: Todo)
    ensures t.title == title && t.desc == desc && t.dueDate == dueDate && t.priority == priority
    ensures t.id == id
    ensures !t.doneStatus
  {
    Todo(title, desc, dueDate, priority, false, id)
  }

  /** The projects the store holds when local storage has no entry: one empty project. */
  function DefaultProjects(): (ps: seq<Project>)
    ensures |ps| == 1
    ensures ps[0].title == "Project 1" && ps[0].id == 0 && ps[0].todos == []
  {
    [NewProject("Project 1", 0)]
  }
}
