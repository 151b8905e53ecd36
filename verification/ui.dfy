/** The one piece of the `UI` module of index.js that changes the store: the done toggle. */
module Ui {
  import opened ProjectTree
  import opened Data

  /** `UI.doneTodo`: flip `doneStatus` of task `todoIndex` of the current project and return
      the new caption of the button ("Undo" for a done task, "Done" otherwise).
      The store is not saved afterwards, so local storage keeps the old status. */
  method DoneTodo(data: Store, currentProjectIndex: nat, todoIndex: nat) returns (caption: string)
    requires currentProjectIndex < |data.projects|
    requires todoIndex < |data.projects[currentProjectIndex].todos|
    modifies data
    ensures data.projects == WithTodo(old(data.projects), currentProjectIndex, todoIndex,
                                      Toggled(old(data.projects)[currentProjectIndex].todos[todoIndex]))
    ensures data.stored == old(data.stored)
    ensures caption == if data.projects[currentProjectIndex].todos[todoIndex].doneStatus then "Undo" else "Done"
  {
    var todo := data.projects[currentProjectIndex].todos[todoIndex];
    data.projects := WithTodo(data.projects, currentProjectIndex, todoIndex, Toggled(todo));
    caption := if !todo.doneStatus then "Undo" else "Done";
  }
}
