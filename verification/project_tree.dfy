/**
 * The store's tree of projects as a value, and one function per change the
 * store makes to it. The store's methods (module Data) and the done toggle
 * (module Ui) are specified by these functions; the lemmas here state what
 * the changes preserve and how they undo each other.
 */
module ProjectTree {
  import opened Records

  /** `s.splice(i, 1)` for an index that is not negative: removes element `i`, moving the
      later elements down one place; an index at or past the end removes nothing. */
  function Spliced<T>(s: seq<T>, i: nat): (r: seq<T>)
    ensures i < |s| ==> |r| == |s| - 1
    ensures i < |s| ==> forall k :: 0 <= k < i ==> r[k] == s[k]
    ensures i < |s| ==> forall k :: i <= k < |r| ==> r[k] == s[k + 1]
    ensures |s| <= i ==> r == s
  {
    if i < |s| then s[..i] + s[i + 1..] else s
  }

  /** The tree with project `p`'s task list replaced by `todos`. */
  function WithTodos(ps: seq<Project>, p: nat, todos: seq<Todo>): (r: seq<Project>)
    requires p < |ps|
    ensures |r| == |ps|
    ensures r[p].title == ps[p].title && r[p].id == ps[p].id && r[p].todos == todos
    ensures forall q :: 0 <= q < |ps| && q != p ==> r[q] == ps[q]
  {
    ps[p := ps[p].(todos := todos)]
  }

  /** The tree with task `i` of project `p` replaced by `t`. */
  function WithTodo(ps: seq<Project>, p: nat, i: nat, t: Todo): (r: seq<Project>)
    requires p < |ps| && i < |ps[p].todos|
    ensures |r| == |ps|
    ensures r[p].title == ps[p].title && r[p].id == ps[p].id
    ensures |r[p].todos| == |ps[p].todos| && r[p].todos[i] == t
    ensures forall j :: 0 <= j < |ps[p].todos| && j != i ==> r[p].todos[j] == ps[p].todos[j]
    ensures forall q :: 0 <= q < |ps| && q != p ==> r[q] == ps[q]
  {
    WithTodos(ps, p, ps[p].todos[i := t])
  }

  /** `t` after `Data.editTodo` has overwritten its four editable fields. */
  function Edited(t: Todo, title: string, desc: string, priority: string, dueDate: string): (e: Todo)
    ensures e.title == title && e.desc == desc && e.priority == priority && e.dueDate == dueDate
    ensures e.doneStatus == t.doneStatus && e.id == t.id
  {
    t.(title := title, desc := desc, priority := priority, dueDate := dueDate)
  }

  /** `t` after the done toggle. */
  function Toggled(t: Todo): (u: Todo)
    ensures u.doneStatus == !t.doneStatus
    ensures u.(doneStatus := t.doneStatus) == t
  {
    t.(doneStatus := !t.doneStatus)
  }

  /** The tree after `n` successive `addProject` calls, adding `qs[0]`, ..., `qs[n-1]` in turn. */
  function AddedInTurn(ps: seq<Project>, qs: seq<Project>): seq<Project>
    decreases |qs|
  {
    if qs == [] then ps else AddedInTurn(ps + [qs[0]], qs[1..])
  }

  /** Successive additions keep the earlier projects in place and the added ones in call order. */
  lemma {:induction false} AddedInTurnAppends(ps: seq<Project>, qs: seq<Project>)
    ensures AddedInTurn(ps, qs) == ps + qs
    decreases |qs|
  {
    if qs != [] {
      AddedInTurnAppends(ps + [qs[0]], qs[1..]);
      assert ps + [qs[0]] + qs[1..] == ps + qs;
    }
  }

  /** Deleting the project just added restores the tree. */
  lemma DeleteUndoesAddProject(ps: seq<Project>, q: Project)
    ensures Spliced(ps + [q], |ps|) == ps
  {
    assert (ps + [q])[..|ps|] == ps;
  }

  /** Deleting the task just added to project `p` restores the tree. */
  lemma DeleteUndoesAddTodo(ps: seq<Project>, p: nat, t: Todo)
    requires p < |ps|
    ensures var added := WithTodos(ps, p, ps[p].todos + [t]);
            WithTodos(added, p, Spliced(added[p].todos, |ps[p].todos|)) == ps
  {
    var added := WithTodos(ps, p, ps[p].todos + [t]);
    var back := WithTodos(added, p, Spliced(added[p].todos, |ps[p].todos|));
    assert (ps[p].todos + [t])[..|ps[p].todos|] == ps[p].todos;
    assert back[p] == ps[p];
    assert forall q :: 0 <= q < |ps| ==> back[q] == ps[q];
  }

  /** Toggling the same task twice restores the tree. */
  lemma ToggleTwiceRestores(ps: seq<Project>, p: nat, i: nat)
    requires p < |ps| && i < |ps[p].todos|
    ensures var once := WithTodo(ps, p, i, Toggled(ps[p].todos[i]));
            WithTodo(once, p, i, Toggled(once[p].todos[i])) == ps
  {
    var once := WithTodo(ps, p, i, Toggled(ps[p].todos[i]));
    var twice := WithTodo(once, p, i, Toggled(once[p].todos[i]));
    assert twice[p].todos == ps[p].todos;
    assert twice[p] == ps[p];
  }

  /** Editing a task to the values it already holds changes nothing. */
  lemma EditToSameValuesIsIdentity(ps: seq<Project>, p: nat, i: nat)
    requires p < |ps| && i < |ps[p].todos|
    ensures var t := ps[p].todos[i];
            WithTodo(ps, p, i, Edited(t, t.title, t.desc, t.priority, t.dueDate)) == ps
  {
    var t := ps[p].todos[i];
    var r := WithTodo(ps, p, i, Edited(t, t.title, t.desc, t.priority, t.dueDate));
    assert r[p].todos == ps[p].todos;
    assert r[p] == ps[p];
  }

  /** Every project's id is its position: what the controller's id rule aims at. */
  predicate ProjectIdsArePositions(ps: seq<Project>) {
    forall k :: 0 <= k < |ps| ==> ps[k].id == k
  }

  /** Every task's id is its position in its list. */
  predicate TodoIdsArePositions(ts: seq<Todo>) {
    forall k :: 0 <= k < |ts| ==> ts[k].id == k
  }

  /** Deleting any project but the last leaves the project now at position `i` with id `i + 1`:
      ids are positions only until the first deletion. */
  lemma SpliceMisalignsProjectIds(ps: seq<Project>, i: nat)
    requires ProjectIdsArePositions(ps) && i + 1 < |ps|
    ensures Spliced(ps, i)[i].id == i + 1
    ensures !ProjectIdsArePositions(Spliced(ps, i))
  {
  }

  /** The same for tasks. */
  lemma SpliceMisalignsTodoIds(ts: seq<Todo>, i: nat)
    requires TodoIdsArePositions(ts) && i + 1 < |ts|
    ensures Spliced(ts, i)[i].id == i + 1
    ensures !TodoIdsArePositions(Spliced(ts, i))
  {
  }
}
