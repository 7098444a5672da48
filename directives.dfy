/** The five placement/binding directive records of `tkreform/declarative.py`
    and the sum type a descriptor's controller ranges over.

    A reference to a widget or window (`in_`, `after`, `before`, the window of a
    MenuBinder) is the index of its toolkit handle (see module Toolkit). */
module Directives {
  import opened Common

  /** Options of the grid geometry manager; every field defaults to unset. */
  datatype Gridder = Gridder(
    column: Option<int> := None,
    columnspan: Option<int> := None,
    in_: Option<nat> := None,
    ipadx: Option<int> := None,
    ipady: Option<int> := None,
    padx: Option<int> := None,
    pady: Option<int> := None,
    row: Option<int> := None,
    rowspan: Option<int> := None,
    sticky: Option<string> := None)

  /** Options of the pack geometry manager. */
  datatype Packer = Packer(
    after: Option<nat> := None,
    anchor: Option<string> := None,
    before: Option<nat> := None,
    expand: bool := false,
    fill: string := "none",
    in_: Option<nat> := None,
    ipadx: Option<int> := None,
    ipady: Option<int> := None,
    padx: Option<int> := None,
    pady: Option<int> := None,
    side: Option<string> := None)

  /** Options of the place geometry manager. */
  datatype Placer = Placer(
    x: Option<int> := None,
    y: Option<int> := None,
    relx: Option<int> := None,
    rely: Option<int> := None,
    width: Option<int> := None,
    height: Option<int> := None,
    relwidth: Option<int> := None,
    relheight: Option<int> := None,
    in_: Option<nat> := None,
    bordermode: Option<string> := None,
    anchor: Option<string> := None)

  /** Makes a menu the menu bar of window `win` (the window's handle). */
  datatype MenuBinder = MenuBinder(win: Option<nat> := None)

  /** Tab options for a child of a notebook. */
  datatype NotebookAdder = NotebookAdder(
    state: string := "normal",
    sticky: Option<string> := None,
    padding: seq<int> := [0, 0],
    text: string := "",
    image: Option<string> := None,
    compound: string := "none",
    underline: int := 0)

  /** What a descriptor's controller can hold. The source stores whatever value
      `*` is given; `Foreign` stands for a value of none of the five kinds. */
  datatype Directive =
    | Grid(grid: Gridder)
    | Pack(pack: Packer)
    | Place(place: Placer)
    | BindMenu(binder: MenuBinder)
    | AddTab(tab: NotebookAdder)
    | Foreign(description: string)
  {
    /** Directives that a geometry manager records as the widget's placement. */
    predicate IsGeometry() {
      Grid? || Pack? || Place?
    }
  }
}
