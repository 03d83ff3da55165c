/**
 * The conditional and list rendering demo component
 * (src/tutorials/week1/RenderingLogic.tsx): its four state cells, the
 * handlers that overwrite them, and the guards that decide what the view
 * shows. The list logic itself is in module TodoList.
 */
module RenderingLogic {
  import opened Wrappers
  import opened TodoList

  /** Which auth block is shown: the welcome-back heading with a log-out button, or the log-in prompt. */
  datatype AuthSection = WelcomeBack | PleaseLogIn

  /** The wording of the empty-list message: "no completed items" or "no active items". */
  datatype EmptyNote = NoneCompleted | NoneActive

  /** The tab buttons, in the order they are rendered. */
  const TabOrder: seq<Tab> := [All, Active, Completed]

  /**
   * What the component renders, reduced to the decisions its guards make:
   * whether the toggled paragraph shows the content or the "hidden" note,
   * and each tab button with whether it is marked active.
   */
  datatype View = View(
    auth: AuthSection,
    welcomeMessage: bool,
    contentShown: bool,
    tabButtons: seq<(Tab, bool)>,
    items: seq<TodoItem>,
    emptyNote: Option<EmptyNote>)

  /**
   * The guards of the render: the auth block follows `isLoggedIn`, the
   * welcome message shows exactly when logged in, the content paragraph
   * (rather than the "hidden" one) shows exactly when `showContent`, the
   * three tab buttons show in order and a button is marked active exactly
   * when it is the selected tab, the list shows the selected view, and the
   * empty-list message shows exactly when no record
   * of the list belongs to that view; its wording says "completed" on the
   * 'completed' tab and "active" on the other two.
   */
  function Render(isLoggedIn: bool, showContent: bool, tab: Tab, todos: seq<TodoItem>): (v: View)
    ensures v.welcomeMessage <==> isLoggedIn
    ensures v.auth == WelcomeBack <==> isLoggedIn
    ensures v.contentShown <==> showContent
    ensures |v.tabButtons| == |TabOrder| &&
            forall i :: 0 <= i < |TabOrder| ==>
              v.tabButtons[i].0 == TabOrder[i] && (v.tabButtons[i].1 <==> TabOrder[i] == tab)
    ensures v.items == FilteredTodos(todos, tab)
    ensures v.emptyNote.Some? <==> forall t :: t in todos ==> !Shows(tab, t)
    ensures v.emptyNote == Some(NoneCompleted) <==> v.emptyNote.Some? && tab == Completed
    ensures tab == All && todos != [] ==> v.emptyNote == None
  {
    var items := FilteredTodos(todos, tab);
    assert items == [] <==> forall t :: t in todos ==> !Shows(tab, t) by {
      if items != [] { assert items[0] in items; }
    }
    View(
      if isLoggedIn then WelcomeBack else PleaseLogIn,
      isLoggedIn,
      showContent,
      seq(|TabOrder|, i requires 0 <= i < |TabOrder| => (TabOrder[i], TabOrder[i] == tab)),
      items,
      if |items| == 0 then Some(if tab == Completed then NoneCompleted else NoneActive) else None)
  }

  /** The component's state cells, overwritten by its handlers. */
  class RenderingLogicComponent {
    var isLoggedIn: bool
    var showContent: bool
    var selectedTab: Tab
    var todos: seq<TodoItem>

    /** The list is never empty and its ids stay distinct. */
    ghost predicate Valid()
      reads this
    {
      |todos| > 0 && DistinctIds(todos)
    }

    /** The current render. */
    function CurrentView(): View
      reads this
    {
      Render(isLoggedIn, showContent, selectedTab, todos)
    }

    /** Mount: logged out, content shown, 'all' tab, the five initial records. */
    constructor ()
      ensures Valid()
      ensures !isLoggedIn && showContent && selectedTab == All && todos == InitialTodos
    {
      isLoggedIn := false;
      showContent := true;
      selectedTab := All;
      todos := InitialTodos;
      new;
      InitialTodosWellFormed();
    }

    /** The log-in button: `setIsLoggedIn(true)`. */
    method LogIn()
      modifies this
      ensures isLoggedIn
      ensures showContent == old(showContent) && selectedTab == old(selectedTab) && todos == old(todos)
    {
      isLoggedIn := true;
    }

    /** The log-out button: `setIsLoggedIn(false)`. */
    method LogOut()
      modifies this
      ensures !isLoggedIn
      ensures showContent == old(showContent) && selectedTab == old(selectedTab) && todos == old(todos)
    {
      isLoggedIn := false;
    }

    /** The show/hide button: `setShowContent(!showContent)`. */
    method ToggleShowContent()
      modifies this
      ensures showContent == !old(showContent)
      ensures isLoggedIn == old(isLoggedIn) && selectedTab == old(selectedTab) && todos == old(todos)
    {
      showContent := !showContent;
    }

    /** A tab button: `setSelectedTab(tab)`. */
    method SelectTab(tab: Tab)
      modifies this
      ensures selectedTab == tab
      ensures isLoggedIn == old(isLoggedIn) && showContent == old(showContent) && todos == old(todos)
    {
      selectedTab := tab;
    }

    /** `toggleTodo(id)`: the list becomes its toggled copy; nothing else changes. */
    method ToggleTodo(id: int)
      requires Valid()
      modifies this
      ensures Valid()
      ensures todos == Toggled(old(todos), id)
      ensures isLoggedIn == old(isLoggedIn) && showContent == old(showContent) && selectedTab == old(selectedTab)
    {
      ToggleKeepsIds(todos, id);
      todos := Toggled(todos, id);
    }

    /** `addTodo(text)`: the list becomes its copy with one fresh record appended. */
    method AddTodo(text: string)
      requires Valid()
      modifies this
      ensures Valid()
      ensures todos == Appended(old(todos), text)
      ensures isLoggedIn == old(isLoggedIn) && showContent == old(showContent) && selectedTab == old(selectedTab)
    {
      AppendKeepsDistinct(todos, text);
      todos := Appended(todos, text);
    }

    /**
     * A click on the `k`-th listed item, which calls `toggleTodo` with its id:
     * the record it shows, and no other, has its flag flipped in place.
     */
    method ClickItem(k: int)
      requires Valid()
      requires 0 <= k < |CurrentView().items|
      modifies this
      ensures Valid()
      ensures exists j :: 0 <= j < |old(todos)| && old(todos)[j] == old(CurrentView().items[k]) &&
                          todos == old(todos)[j := Flipped(old(todos)[j])]
      ensures isLoggedIn == old(isLoggedIn) && showContent == old(showContent) && selectedTab == old(selectedTab)
    {
      var item := CurrentView().items[k];
      assert item in FilteredTodos(todos, selectedTab);
      var j :| 0 <= j < |todos| && todos[j] == item;
      ToggleOne(todos, j);
      ToggleTodo(item.id);
    }
  }
}
