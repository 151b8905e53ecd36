/**
 * The `Data` module of index.js: the one store of projects the application
 * has, loaded from local storage when the page starts and written back in
 * full after each of its own mutations.
 */
module Data {
  import opened Wrappers
  import opened Records
  import opened ProjectTree

  /** What the store holds at start-up, given the `projects` entry of local storage
      (`None` when there is no entry). An entry that holds an empty list is kept:
      an empty array is not falsy, so only a missing entry falls back to the default. */
  function Load(stored: Option<seq<Project>>): (ps: seq<Project>)
    ensures stored.None? ==> ps == DefaultProjects()
    ensures stored.Some? ==> ps == stored.value
  {
    match stored
    case None => DefaultProjects()
    case Some(saved) => saved
  }

  class Store {
    /** The shared, exported list of projects. */
    var projects: seq<Project>
    /** The `projects` entry of local storage; the JSON encoding is not modelled. */
    var stored: Option<seq<Project>>

    /** Local storage holds exactly the in-memory tree. */
    predicate Saved()
      reads this
    {
      stored == Some(projects)
    }

    /** Start-up: read the storage entry. Nothing is written back until the first mutation. */
    constructor (storage: Option<seq<Project>>)
      ensures projects == Load(storage)
      ensures stored == storage
    {
      projects := Load(storage);
      stored := storage;
    }

    /** `saveProjectsToLocalStorage`: overwrite the entry with the whole tree. */
    method Save()
      modifies this`stored
      ensures Saved()
    {
      stored := Some(projects);
    }

    /** `addProject`: push `project` and save. */
    method AddProject(project: Project)
      modifies this
      ensures projects == old(projects) + [project]
      ensures Saved()
    {
      projects := projects + [project];
      Save();
    }

    /** `delProject`: splice out the project at `projIndex` (nothing when past the end) and save. */
    method DelProject(projIndex: nat)
      modifies this
      ensures projects == Spliced(old(projects), projIndex)
      ensures Saved()
    {
      projects := Spliced(projects, projIndex);
      Save();
    }

    /** `delTodo`: splice out task `todoIndex` of project `projIndex` and save.
        The project must exist (`projects[projIndex].todos` would throw otherwise). */
    method DelTodo(projIndex: nat, todoIndex: nat)
      requires projIndex < |projects|
      modifies this
      ensures projects == WithTodos(old(projects), projIndex, Spliced(old(projects)[projIndex].todos, todoIndex))
      ensures Saved()
    {
      projects := WithTodos(projects, projIndex, Spliced(projects[projIndex].todos, todoIndex));
      Save();
    }

    /** `addTodo`: push `todo` onto project `projIndex`'s tasks and save. */
    method AddTodo(projIndex: nat, todo: Todo)
      requires projIndex < |projects|
      modifies this
      ensures projects == WithTodos(old(projects), projIndex, old(projects)[projIndex].todos + [todo])
      ensures Saved()
    {
      projects := WithTodos(projects, projIndex, projects[projIndex].todos + [todo]);
      Save();
    }

    /** `editTodo`: overwrite title, description, priority and due date of one task and save.
        The task must exist (assigning to a field of `undefined` would throw otherwise). */
    method EditTodo(projIndex: nat, todoIndex: nat, newTitle: string, newDesc: string,
                    newPriority: string, newDueDate: string)
      requires projIndex < |projects| && todoIndex < |projects[projIndex].todos|
      modifies this
      ensures projects == WithTodo(old(projects), projIndex, todoIndex,
                                   Edited(old(projects)[projIndex].todos[todoIndex],
                                          newTitle, newDesc, newPriority, newDueDate))
      ensures Saved()
    {
      var todoToUpdate := projects[projIndex].todos[todoIndex];
      projects := WithTodo(projects, projIndex, todoIndex,
                           Edited(todoToUpdate, newTitle, newDesc, newPriority, newDueDate));
      Save();
    }
  }

  /** A page reload after a mutation: a store started from the entry that `data` left in
      local storage holds the same projects as `data`. */
  method Reload(data: Store) returns (reloaded: Store)
    requires data.Saved()
    ensures fresh(reloaded)
    ensures reloaded.projects == data.projects && reloaded.Saved()
  {
    reloaded := new Store(data.stored);
  }
}
