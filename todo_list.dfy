/**
 * The to-do list logic of the conditional and list rendering demo
 * (src/tutorials/week1/RenderingLogic.tsx): the records, the three views
 * of the list, the immutable toggle of one record and the append that mints
 * a fresh id. Everything here is a pure function over sequences; the
 * component state that holds the list is in module RenderingLogic.
 */
module TodoList {

  /** One to-do record: `{id, text, completed}`. */
  datatype TodoItem = TodoItem(id: int, text: string, completed: bool)

  /** The tab that selects a view of the list: 'all', 'active' or 'completed'. */
  datatype Tab = All | Active | Completed

  /** The list the component starts with: ids 1 to 5, the first two done. */
  const InitialTodos: seq<TodoItem> := [
    TodoItem(1, "学习 JSX", true),
    TodoItem(2, "理解组件和 Props", true),
    TodoItem(3, "掌握 State 和生命周期", false),
    TodoItem(4, "学习事件处理", false),
    TodoItem(5, "练习条件和列表渲染", false)
  ]

  /** No two records share an id (React keys the rendered items by id). */
  ghost predicate DistinctIds(todos: seq<TodoItem>) {
    forall i, j :: 0 <= i < j < |todos| ==> todos[i].id != todos[j].id
  }

  /** The ids of the records, in list order. */
  function Ids(todos: seq<TodoItem>): (r: seq<int>)
    ensures |r| == |todos|
    ensures forall i :: 0 <= i < |todos| ==> r[i] == todos[i].id
  {
    seq(|todos|, i requires 0 <= i < |todos| => todos[i].id)
  }

  /**
   * `r` occurs in `s` in order, possibly with gaps. Matching each element of
   * `r` against the leftmost fitting element of `s` decides this.
   */
  ghost predicate IsSubsequence(r: seq<TodoItem>, s: seq<TodoItem>)
    decreases |s|
  {
    r == [] ||
    (s != [] &&
     if r[0] == s[0] then IsSubsequence(r[1..], s[1..]) else IsSubsequence(r, s[1..]))
  }

  /**
   * Whether tab `tab` lists record `t` (the `switch` of `getFilteredTodos`):
   * 'all' lists every record, and the other two list a record exactly when
   * the tab names its status.
   */
  predicate Shows(tab: Tab, t: TodoItem): (b: bool)
    ensures b <==> tab == All || (tab == Completed <==> t.completed)
  {
    match tab
    case All => true
    case Active => !t.completed
    case Completed => t.completed
  }

  // ---------------------------------------------------------------------
  // Filtering

  /** `todos.filter(todo => todo.completed == completed)`. */
  function Filter(todos: seq<TodoItem>, completed: bool): (r: seq<TodoItem>)
    ensures |r| <= |todos|
    ensures forall t :: t in r <==> t in todos && t.completed == completed
  {
    if todos == [] then []
    else
      assert todos == [todos[0]] + todos[1..];
      if todos[0].completed == completed then [todos[0]] + Filter(todos[1..], completed)
      else Filter(todos[1..], completed)
  }

  /** Filtering keeps the records it keeps in their original order. */
  lemma {:induction false} FilterIsSubsequence(todos: seq<TodoItem>, completed: bool)
    ensures IsSubsequence(Filter(todos, completed), todos)
  {
    if todos != [] {
      FilterIsSubsequence(todos[1..], completed);
      var r := Filter(todos, completed);
      if todos[0].completed != completed && r != [] {
        assert r[0] in r;
      }
    }
  }

  /** Filtering a concatenation filters each part: the filter looks at one record at a time. */
  lemma {:induction false} FilterConcat(a: seq<TodoItem>, b: seq<TodoItem>, completed: bool)
    ensures Filter(a + b, completed) == Filter(a, completed) + Filter(b, completed)
  {
    if a == [] {
      assert a + b == b;
    } else {
      assert (a + b)[0] == a[0];
      assert (a + b)[1..] == a[1..] + b;
      FilterConcat(a[1..], b, completed);
    }
  }

  /**
   * The completed view and the active view split the list: together they
   * hold every record exactly as often as the list does.
   */
  lemma {:induction false} FilterPartition(todos: seq<TodoItem>)
    ensures multiset(Filter(todos, true)) + multiset(Filter(todos, false)) == multiset(todos)
    ensures |Filter(todos, true)| + |Filter(todos, false)| == |todos|
  {
    if todos != [] {
      FilterPartition(todos[1..]);
      assert todos == [todos[0]] + todos[1..];
      assert multiset(todos) == multiset{todos[0]} + multiset(todos[1..]);
    }
    assert |multiset(Filter(todos, true)) + multiset(Filter(todos, false))| == |multiset(todos)|;
  }

  /** A filtered view holds each record it keeps exactly as often as the list does. */
  lemma FilterCounts(todos: seq<TodoItem>, completed: bool, t: TodoItem)
    ensures multiset(Filter(todos, completed))[t] ==
            if t.completed == completed then multiset(todos)[t] else 0
  {
    FilterPartition(todos);
    if t.completed {
      assert t !in Filter(todos, false);
    } else {
      assert t !in Filter(todos, true);
    }
  }

  /**
   * `getFilteredTodos`: 'all' is the list itself; 'active' and 'completed'
   * are exactly the records with that flag, in their original order, each as
   * often as in the list.
   */
  function FilteredTodos(todos: seq<TodoItem>, tab: Tab): (r: seq<TodoItem>)
    ensures tab == All ==> r == todos
    ensures IsSubsequence(r, todos)
    ensures forall t :: t in r <==> t in todos && Shows(tab, t)
    ensures forall t :: multiset(r)[t] == if Shows(tab, t) then multiset(todos)[t] else 0
  {
    match tab
    case All =>
      FilterIsSubsequence(todos, true);
      FilterIsSubsequence(todos, false);
      SubsequenceReflexive(todos);
      todos
    case Active =>
      FilterIsSubsequence(todos, false);
      FilterCountsAll(todos, false);
      Filter(todos, false)
    case Completed =>
      FilterIsSubsequence(todos, true);
      FilterCountsAll(todos, true);
      Filter(todos, true)
  }

  /** FilterCounts for every record at once. */
  lemma FilterCountsAll(todos: seq<TodoItem>, completed: bool)
    ensures forall t :: multiset(Filter(todos, completed))[t] ==
                        if t.completed == completed then multiset(todos)[t] else 0
  {
    forall t ensures multiset(Filter(todos, completed))[t] ==
                     if t.completed == completed then multiset(todos)[t] else 0 {
      FilterCounts(todos, completed, t);
    }
  }

  /** Every list is a subsequence of itself. */
  lemma {:induction false} SubsequenceReflexive(s: seq<TodoItem>)
    ensures IsSubsequence(s, s)
  {
    if s != [] {
      SubsequenceReflexive(s[1..]);
    }
  }

  // ---------------------------------------------------------------------
  // Toggling one record

  /** The record with its completed flag flipped (`{...todo, completed: !todo.completed}`). */
  function Flipped(t: TodoItem): (r: TodoItem)
    ensures r.completed == !t.completed && r.id == t.id && r.text == t.text
  {
    t.(completed := !t.completed)
  }

  /**
   * The `map` inside `toggleTodo(id)`: every record whose id is `id` has its
   * flag flipped; every other record is kept as it is; length, order, ids
   * and texts are kept.
   */
  function Toggled(todos: seq<TodoItem>, id: int): (r: seq<TodoItem>)
    ensures |r| == |todos|
    ensures forall i :: 0 <= i < |todos| ==> r[i].id == todos[i].id && r[i].text == todos[i].text
    ensures forall i :: 0 <= i < |todos| && todos[i].id != id ==> r[i] == todos[i]
    ensures forall i :: 0 <= i < |todos| && todos[i].id == id ==> r[i].completed == !todos[i].completed
  {
    if todos == [] then []
    else
      [if todos[0].id == id then Flipped(todos[0]) else todos[0]] + Toggled(todos[1..], id)
  }

  /** Toggling keeps the ids, so it keeps them distinct. */
  lemma ToggleKeepsIds(todos: seq<TodoItem>, id: int)
    ensures Ids(Toggled(todos, id)) == Ids(todos)
    ensures DistinctIds(todos) ==> DistinctIds(Toggled(todos, id))
  {
  }

  /** Toggling an id that no record carries leaves the list unchanged. */
  lemma ToggleAbsent(todos: seq<TodoItem>, id: int)
    requires id !in Ids(todos)
    ensures Toggled(todos, id) == todos
  {
  }

  /** Toggling the same id twice restores the list. */
  lemma ToggleTwice(todos: seq<TodoItem>, id: int)
    ensures Toggled(Toggled(todos, id), id) == todos
  {
  }

  /** With distinct ids, toggling the id of record `k` replaces that record alone. */
  lemma ToggleOne(todos: seq<TodoItem>, k: int)
    requires DistinctIds(todos)
    requires 0 <= k < |todos|
    ensures Toggled(todos, todos[k].id) == todos[k := Flipped(todos[k])]
  {
  }

  /**
   * With distinct ids, toggling record `k` moves it from the view of its old
   * flag to the view of its new flag: the first shrinks by one, the other
   * grows by one.
   */
  lemma {:induction false} ToggleMovesBetweenViews(todos: seq<TodoItem>, k: int)
    requires DistinctIds(todos)
    requires 0 <= k < |todos|
    ensures |Filter(Toggled(todos, todos[k].id), todos[k].completed)| + 1 ==
            |Filter(todos, todos[k].completed)|
    ensures |Filter(Toggled(todos, todos[k].id), !todos[k].completed)| ==
            |Filter(todos, !todos[k].completed)| + 1
  {
    var id, c := todos[k].id, todos[k].completed;
    var tail := todos[1..];
    assert Toggled(todos, id) == [Toggled(todos, id)[0]] + Toggled(tail, id);
    if k == 0 {
      assert id !in Ids(tail) by {
        forall i | 0 <= i < |tail| ensures tail[i].id != id {
          assert todos[0].id != todos[i + 1].id;
        }
      }
      ToggleAbsent(tail, id);
    } else {
      assert todos[0].id != id by { assert todos[0].id != todos[k].id; }
      assert tail[k - 1] == todos[k];
      ToggleMovesBetweenViews(tail, k - 1);
    }
  }

  // ---------------------------------------------------------------------
  // Appending a record

  /** `Math.max(...todos.map(t => t.id))`: the largest id, defined on a non-empty list. */
  function MaxId(todos: seq<TodoItem>): (m: int)
    requires |todos| > 0
    ensures forall i :: 0 <= i < |todos| ==> todos[i].id <= m
    ensures exists i :: 0 <= i < |todos| && todos[i].id == m
  {
    if |todos| == 1 then todos[0].id
    else
      var rest := MaxId(todos[1..]);
      assert forall i :: 1 <= i < |todos| ==> todos[i] == todos[1..][i - 1];
      if todos[0].id >= rest then todos[0].id else rest
  }

  /**
   * `[...todos, newTodo]` in `addTodo(text)`: one record appended at the end,
   * carrying `text`, not completed, with an id one above the largest
   * existing id and so above every existing id.
   */
  function Appended(todos: seq<TodoItem>, text: string): (r: seq<TodoItem>)
    requires |todos| > 0
    ensures |r| == |todos| + 1 && r[..|todos|] == todos
    ensures r[|todos|].text == text && !r[|todos|].completed
    ensures forall i :: 0 <= i < |todos| ==> todos[i].id < r[|todos|].id
    ensures exists i :: 0 <= i < |todos| && r[|todos|].id == todos[i].id + 1
  {
    todos + [TodoItem(MaxId(todos) + 1, text, false)]
  }

  /** Appending keeps distinct ids distinct, since the new id is fresh. */
  lemma AppendKeepsDistinct(todos: seq<TodoItem>, text: string)
    requires |todos| > 0
    requires DistinctIds(todos)
    ensures DistinctIds(Appended(todos, text))
  {
  }

  /**
   * The new record shows on the 'active' view, after every record already
   * there; the 'completed' view is unchanged.
   */
  lemma AppendedViews(todos: seq<TodoItem>, text: string)
    requires |todos| > 0
    ensures var r := Appended(todos, text);
            Filter(r, false) == Filter(todos, false) + [r[|todos|]] &&
            Filter(r, true) == Filter(todos, true)
  {
    var r := Appended(todos, text);
    assert r == todos + [r[|todos|]];
    FilterConcat(todos, [r[|todos|]], false);
    FilterConcat(todos, [r[|todos|]], true);
    assert Filter([r[|todos|]], false) == [r[|todos|]];
    assert Filter([r[|todos|]], true) == [];
  }

  /** The initial list is non-empty and its ids are 1 to 5. */
  lemma InitialTodosWellFormed()
    ensures Ids(InitialTodos) == [1, 2, 3, 4, 5]
    ensures DistinctIds(InitialTodos)
  {
  }
}
