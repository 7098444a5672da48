# tkreform, modelled in Dafny

tkreform wraps tkinter. A `Window` or `Widget` wraps a toolkit widget. It
keeps an ordered list of child wrappers, an optional linguist and the raw,
untranslated text or title. Setting the linguist re-applies that raw text
through the linguist and passes the linguist on to every child. `load_sub`
builds a tree of widgets from declarative `W` descriptors, and `self / items`
replaces the children with a freshly loaded tree. Around that core there are:

- the five directive records and the `W`/`M` builders;
- key/value message tables and `KVPairLinguist`;
- the `Event` sequence builder with its negation table;
- menu items;
- the window geometry accessors;
- the gridding and action groups.

The project is organised as follows:

- `common.dfy` (module `Common`): options, the library's exceptions as error
  values, Python's `str(int)`/`int(str)`, `str.join` and `str.split(c, 1)`.
- `directives.dfy` (`Directives`): `Gridder`, `Packer`, `Placer`,
  `MenuBinder` and `NotebookAdder`, with their defaults.
- `toolkit.dfy` (`Toolkit`): an abstract toolkit. Every toolkit widget is a
  record in one sequence, and the operations the library calls (create,
  configure text and state, place, add, set menu, destroy, bind) update that
  record.
- `menu.dfy` (`Menu`): `MenuItem` and its five item types.
- `declarative.dfy` (`Declarative`): the `W` and `M` builders. The
  descriptor tree a builder stands for is the value `Desc`.
- `linguist.dfy` (`Linguist`): `Messages.__matmul__` (reverse lookup) and
  `KVPairLinguist`.
- `events.dfy` (`Events`): `Event`, its combination operators, its negation
  and the predefined events.
- `base.dfy` (`Base`): the live tree as the class `Forest`. A wrapper is a
  node index. Node `i` wraps toolkit widget `i`.
- `geometry.dfy` (`Geometry`): the string forms behind `xgeo`, `size` and
  `pos`, plus `resizable` and `size_range`.
- `groups.dfy` (`Groups`): `GriddingGroup` and `ActionGroup`.

## Model

| member | source | states |
|---|---|---|
| Common.IntToString | tkreform/base.py:484 | `str(i)` is non-empty and made of digits, with at most a leading '-' |
| Common.ParseInt | tkreform/base.py:479-480 | `int(s)` succeeds exactly on an optional sign followed by decimal digits; otherwise it raises ValueError |
| Common.IntRoundTrip | tkreform/base.py:479-484 | `int(str(i)) == i` for every int |
| Common.SplitOnce | tkreform/base.py:478-479 | `split(c, 1)` gives two parts exactly when `c` occurs; the parts rebuild the string, and the first part holds no `c` |
| Common.Join | tkreform/events.py:32 | joining no parts gives "" and joining one part gives that part |
| Common.JoinAppend | tkreform/events.py:32 | joining two non-empty runs of parts is the join of the first, the separator, then the join of the second; so a join of two or more parts is the first part, the separator, then the join of the rest |
| Common.JoinEmpty | tkreform/events.py:32 | a join of non-empty parts is empty exactly when there are no parts |
| Common.NonEmpty | tkreform/events.py:32 | the filter `if x[0]` keeps only non-empty strings, each non-empty string as often as it occurs, and keeps a run with no empty string whole |
| Common.NonEmptyAppend | tkreform/events.py:32 | the filter keeps the order: filtering two runs one after the other is filtering each |
| Common.NonEmptyNone | tkreform/events.py:32 | the filter leaves nothing exactly when every string is empty |
| Toolkit.Toolkit.Bind | tkreform/base.py:81-84 | `bind(seq, f, add)` appends `f` to the handlers of `seq` when `add` is set, and replaces them otherwise |
| Menu.MenuItem.constructor | tkreform/menu.py:6-9 | a new item keeps its type and options and is unbound |
| Menu.MenuItem.Cascade | tkreform/menu.py:27-29 | the type tag is "cascade" |
| Menu.MenuItem.Checkbutton | tkreform/menu.py:32-34 | the type tag is "checkbutton" |
| Menu.MenuItem.Command | tkreform/menu.py:37-39 | the type tag is "command" |
| Menu.MenuItem.RadioButton | tkreform/menu.py:42-44 | the type tag is "radiobutton" |
| Menu.MenuItem.Separator | tkreform/menu.py:47-49 | the type tag is "separator" |
| Menu.MenuItem.BindMenu | tkreform/menu.py:11-13 | the item is now bound to the given menu |
| Menu.MenuItem.AddEntry | tkreform/menu.py:15-18 | an unbound item raises MenuNotBinded and changes nothing; a bound one appends exactly one entry to its menu and changes nothing else |
| Menu.MenuItem.AddItem | tkreform/menu.py:20-24 | an unbound item raises before it touches `it`; otherwise `it` is bound to the same menu and its entry is appended to that menu |
| Declarative.W.constructor | tkreform/declarative.py:108-112 | a new builder has no controller and no children |
| Declarative.W.M | tkreform/declarative.py:123-126 | an `M` builder describes a Menu widget and carries the item |
| Declarative.W.Mul | tkreform/declarative.py:114-116 | `w * d` overwrites the controller, keeps the children and returns the same builder |
| Declarative.W.Div | tkreform/declarative.py:118-120 | `w / s` overwrites the children, keeps the controller and returns the same builder |
| Declarative.Widgets | tkreform/base.py:106-110 | the descriptors the load creates nodes for are widget descriptors taken from the child sequence, at most as many as it has |
| Declarative.WidgetsCount | tkreform/base.py:106-110 | each widget descriptor is kept as often as it occurs, and a sequence of widget descriptors only is kept whole |
| Declarative.WidgetsAppend | tkreform/base.py:106-110 | the widget descriptors keep their order: those of two runs one after the other are those of each |
| Linguist.KeyOf | tkreform/linguist.py:10-14 | `m @ v` gives the key of the first entry, in insertion order, whose text is `v`; it raises MessageNotFound exactly when no entry has that text |
| Linguist.FindKey | tkreform/linguist.py:11-14 | the scanning loop returns what KeyOf specifies |
| Linguist.Lookup | tkreform/linguist.py:47 | `m[k]` gives a text stored under `k`, and raises KeyError exactly when `k` is absent |
| Linguist.KeyOfThenLookup | tkreform/linguist.py:10-14 | in a table with distinct keys, `m[m @ v] == v` whenever some key has text `v` |
| Linguist.KVPairLinguist.constructor | tkreform/linguist.py:36-43 | the linguist stores its tables, base and fallback; its destination starts at the default locale |
| Linguist.KVPairLinguist.Translate | tkreform/linguist.py:45-47 | `lin[text]` raises KeyError for a missing base table; it raises MessageNotFound for a text absent from the base table; otherwise it looks up the first matching key in the destination table |
| Linguist.KVPairLinguist.SetDest | tkreform/linguist.py:53-55 | the `dest` setter sets the destination |
| Linguist.KVPairLinguist.CurrentMessages | tkreform/linguist.py:57-59 | gives the destination's table, or KeyError exactly when it has none |
| Linguist.TranslateIdentity | tkreform/linguist.py:45-47 | with the destination equal to the base locale, every base text translates to itself |
| Linguist.TranslateAbsent | tkreform/linguist.py:45-47 | a text missing from the base table raises MessageNotFound, whatever the destination |
| Linguist.TranslateFound | tkreform/linguist.py:45-47 | a successful translation is the destination text under the first base key whose text matches |
| Events.Insert | tkreform/events.py:27-28 | inserting into a canonically ordered sequence keeps it strictly ordered, adds the triple and drops a duplicate |
| Events.Sort | tkreform/events.py:27-28 | `sorted(set(data), key=(-ord, event))` is strictly ordered and holds exactly the distinct triples of `data` |
| Events.SortedUnique | tkreform/events.py:27-28 | two strictly ordered sequences with the same triples are equal, so an event is determined by its set of triples |
| Events.TripleLtTransitive | tkreform/events.py:28 | the canonical order is transitive |
| Events.TripleLtTotal | tkreform/events.py:28 | any two distinct triples are ordered one way or the other |
| Events.MakeEvent | tkreform/events.py:26-28 | `Event(*data)` is canonical and holds exactly the triples of `data` |
| Events.MakeEventOfValid | tkreform/events.py:26-28 | rebuilding an event from its own triples gives it back |
| Events.MakeEventCanonical | tkreform/events.py:26-28 | the order and repetition of constructor arguments do not matter |
| Events.AsEvent | tkreform/events.py:48-52 | a non-event operand `v` becomes the single triple `(str(v), str(v), DETAIL)` |
| Events.Add | tkreform/events.py:47-53 | `e + o` is canonical and holds exactly the triples of both operands |
| Events.Sub | tkreform/events.py:55-56 | `e - o` holds exactly the triples of both operands |
| Events.And | tkreform/events.py:58-59 | `e & o` holds exactly the triples of both operands |
| Events.Or | tkreform/events.py:61-62 | `e \| o` holds exactly the triples of both operands |
| Events.AddCommutes | tkreform/events.py:47-53 | `a + b` and `b + a` have the same `_ed` (Python's `==` on events is identity) |
| Events.AddAssociates | tkreform/events.py:47-53 | `(a + b) + c` and `a + (b + c)` have the same `_ed` |
| Events.AddIdempotent | tkreform/events.py:47-53 | `e + e` has the same `_ed` as `e` |
| Events.NegWordInvolution | tkreform/events.py:11-22 | the negation table is its own inverse on every word except `KeyPress` and `ButtonPress` |
| Events.NegWordPressAliases | tkreform/events.py:11-22 | `KeyPress` and `ButtonPress` negate to the release words, whose opposites are `Key` and `Button` |
| Events.NegAll | tkreform/events.py:64-71 | each triple's event word is replaced by its opposite, and names and ords are kept |
| Events.Neg | tkreform/events.py:64-71 | `-e` is canonical and holds exactly the negated triples of `e` |
| Events.NegNeg | tkreform/events.py:64-71 | `-(-e)` has the same `_ed` as `e` for events without a press alias |
| Events.NegNegKeyPress | tkreform/events.py:14 | `-(-KeyPress)` is `Key`, so double negation does not give back an event with a press alias |
| Events.Event.Literal | tkreform/events.py:30-32 | `literal` is empty exactly when every name is empty |
| Events.Event.EventString | tkreform/events.py:34-36 | `event` is the join with `-` of the non-empty event words inside angle brackets, and is `<>` exactly when every word is empty |
| Events.RenderCanonical | tkreform/events.py:26-36 | two events built from the same triples, in any order and with any repetition, have the same `literal` and `event` |
| Events.LiteralSplit | tkreform/events.py:30-32 | `literal` is that of a prefix of `_ed`, a `+`, then that of the rest, whenever both have a non-empty name |
| Events.EventStringSplit | tkreform/events.py:26-36 | the triples of higher ord come first, and `event` is that of the prefix, a `-`, then that of the rest, whenever both have a non-empty word |
| Events.JoinNonEmptyAppend | tkreform/events.py:32-36 | filtering and joining two runs, each with a non-empty part, puts the separator between the results |
| Events.ModifierThenKey | tkreform/events.py:30-53 | a modifier (ord above DETAIL) plus a key string renders as `<modifier-key>` and `Name+key`: the modifier comes first |
| Events.FN | tkreform/events.py:81-82 | `FN(n)` is the single TYPE triple `("F<n>", "F<n>")` |
| Events.LmbStrings | tkreform/events.py:89 | `LMB` is `<Button-1>`, spelled "Left Mouse Button" |
| Events.CtrlSStrings | tkreform/events.py:30-36 | `CTRL + "s"` is `<Control-s>`, spelled "Ctrl+s": modifiers come before details |
| Base.ShownErrors | tkreform/base.py:309-315 | setting a text swallows MessageNotFound; only a KeyError from a linguist escapes |
| Base.ShownIdempotent | tkreform/base.py:309-315 | re-applying the same raw text shows the same text |
| Base.ShownIdentity | tkreform/base.py:309-315 | a linguist whose destination is its base locale shows every base text as itself |
| Base.ShownFallback | tkreform/base.py:309-315 | a text the linguist cannot find leaves the displayed text as it was |
| Base.SliceBound | tkreform/base.py:57-58 | a missing bound takes its default; a bound within the list is kept, a negative one counts from the end, one past the end gives the length and one before the start gives 0 |
| Base.Forest.Child | tkreform/base.py:57-58 | `self[i]` is the child at Python index `i`, negative counting from the end; IndexError exactly when out of range; a child comes after its parent |
| Base.Forest.Children | tkreform/base.py:57-58 | `self[a:b]` is the run of children from the first bound up to the second |
| Base.Forest.AddWidget | tkreform/base.py:86-98 | creates one toolkit widget under this one and appends one new wrapper, without linguist, as the last child; a text-bearing widget records its initial text as raw text |
| Base.Forest.SetText | tkreform/base.py:304-315 | the `text` (and window `title`, base.py:454-462) setter always records the raw text; the display becomes the translation, stays unchanged on MessageNotFound, and only a KeyError escapes |
| Base.Forest.SetLinguist | tkreform/base.py:145-148 | setting the linguist changes linguists and texts only inside this node's subtree; on success every node there has the linguist, and every node that refreshes (a window, or a childless widget with raw text, base.py:298-300) shows its raw text through it, keeping its display on MessageNotFound; a widget with children keeps its displayed text; the only error is a KeyError |
| Base.Forest.Relabel | tkreform/base.py:298-300 | a widget re-applies its raw text only when it has no children; a window always does (base.py:444-445); nothing else changes |
| Base.Forest.SetChildrenLinguist | tkreform/base.py:301-302 | every child subtree in turn gets the linguist; it stops at the first error and never touches the node itself |
| Base.Forest.Apply | tkreform/base.py:250-283 | a grid, pack or place directive becomes the widget's placement; a MenuBinder with a window makes the widget that window's menu; a NotebookAdder or a window-less MenuBinder changes nothing; anything else raises WidgetNotArranged |
| Base.Forest.Text | tkreform/base.py:303-306 | the `text` getter (and a window's `title` getter, base.py:448-451) reads what the toolkit widget displays, not the raw text; SetText, SetLinguist and AddChild state what that is after each change |
| Base.Forest.Disabled | tkreform/base.py:364-366 | `disabled` is true exactly when the widget's state is "disabled" |
| Base.Forest.SetDisabled | tkreform/base.py:364-370 | afterwards `disabled` reads back the value set (base.py:364-366), and only the state changes |
| Base.Forest.NewWindow | tkreform/base.py:379-386 | a new window node whose raw title is the title its window shows |
| Base.Forest.AddChild | tkreform/base.py:110-121 | adds one child made from the descriptor under this node's widget, with no entries, and passes the linguist on; a Label, Button or Message child records its `text` option as raw text (base.py:164-165); on success the child shows that text through this node's linguist, kept as given when the translation is MessageNotFound (base.py:298-300, 309-315), and any other child shows the option as given; on success this widget's entries grow by exactly the child's registration, on failure they are unchanged; the only errors are a KeyError from a linguist or the AttributeError of a notebook child without tab options |
| Base.Forest.Register | tkreform/base.py:112-121 | an `M` under a menu adds a cascade entry, a paned window adds a pane and a notebook adds a tab; it raises exactly for a notebook child without tab options, and otherwise changes nothing |
| Base.Forest.AddEntry | tkreform/base.py:108 | a menu item descriptor appends its entry to this node's widget and changes nothing else |
| Base.MadeTreeKept | tkreform/base.py:100-124 | a subtree loaded earlier stays loaded, with its entries, raw and shown texts, while later loads leave its nodes alone |
| Base.ShowsAdded | tkreform/base.py:110-111 | a new childless widget whose linguist is then set shows its `text` option through that linguist exactly when it records raw text (base.py:164-165, 298-300), and keeps the option otherwise |
| Base.MadeFromKept | tkreform/base.py:100-124 | children loaded earlier stay loaded while their parent's child list only grows |
| Base.LoadedTree | tkreform/base.py:110-124 | a child made without controller and showing its text, with its own descriptors loaded below it and then its controller applied, is the whole subtree of its descriptor |
| Base.RegisteredItem | tkreform/base.py:107-108 | a menu item extends the parent's entries by its own entry (its type and options) without submenu |
| Base.RegisteredWidget | tkreform/base.py:109-121 | a widget descriptor extends the parent's entries by the registration of its child |
| Base.Forest.Arrange | tkreform/base.py:123-124 | applying a descriptor's controller, if any, to the new child changes only that child's placement and the named window's menu bar; a controller the library does not know raises WidgetNotArranged |
| Base.Forest.AddTree | tkreform/base.py:110-122 | on success the new last child was made from the descriptor, shows its text through this node's linguist, and exactly its own descriptors were loaded below it, each with its subtree, giving it exactly their entries; this widget's entries grow by the child's registration; only additions happen; without a linguist a loadable descriptor loads |
| Base.Forest.LoadOne | tkreform/base.py:110-124 | on success the new last child and everything below it were loaded from the descriptor (MadeTree: class, options, raw text, the text shown through this node's linguist, parent, placement, entries and the children's subtrees, recursively); this widget's entries grow by exactly the child's registration; only additions happen; without a linguist a loadable descriptor loads |
| Base.Forest.LoadSub | tkreform/base.py:100-124 | `load_sub(items)` appends exactly one child per widget descriptor, in order, each with its whole subtree and the texts it records and shows under this node's linguist; this widget's entries grow by exactly the entries the items add, in order; it only adds; the errors are those of LoadError; without a linguist, loadable items always load |
| Base.Forest.ItemStep | tkreform/base.py:107-108 | a menu item appends exactly its own entry (its type and options, no submenu) to this widget, adds no node, and keeps what was loaded so far |
| Base.Forest.WidgetStep | tkreform/base.py:109-124 | a widget descriptor extends the loaded run by one child with its subtree and texts, and the entries by that child's registration |
| Base.Forest.Replace | tkreform/base.py:126-131 | `self / items` destroys the widget of every old child; other nodes, linguists and texts are unchanged, every other widget changes at most its menu bar, the new nodes get this node's linguist, the new children are exactly those loaded from `items` with their subtrees and texts, the entries grow by what `items` adds, and the same node is returned |
| Base.Forest.DestroyChildren | tkreform/base.py:127-128 | exactly the widgets of the current children are marked destroyed |
| Geometry.ParseSize | tkreform/base.py:479 | unpacking the size part raises only ValueError |
| Geometry.ParseXGeo | tkreform/base.py:478-480 | the `xgeo` getter raises only ValueError, and raises the unpacking error when the string has no '+' |
| Geometry.FormatXGeo | tkreform/base.py:483-484 | the `xgeo` setter's string is the `size` setter's string followed by the `pos` setter's string |
| Geometry.XGeoRoundTrip | tkreform/base.py:473-484 | reading `xgeo` after setting it to any four ints gives them back |
| Geometry.ParseSizeSpec | tkreform/base.py:492-494 | the size part the setters write reads back as the same two ints |
| Geometry.XGeoOnePlus | tkreform/base.py:478 | a geometry string with a single '+' has too few parts to unpack |
| Geometry.SizeOf | tkreform/base.py:486-490 | `size` succeeds exactly when `xgeo` does, gives its width and height, and otherwise fails with its error |
| Geometry.PosOf | tkreform/base.py:496-500 | `pos` succeeds exactly when `xgeo` does, gives its x and y, and otherwise fails with its error |
| Geometry.Resizable | tkreform/base.py:538-541 | a single flag applies to both axes and a pair is passed through |
| Geometry.ResizableReadBack | tkreform/base.py:533-541 | writing back the pair the `resizable` getter reads changes nothing, and one flag equals that flag for both axes |
| Geometry.LimitsOf | tkreform/base.py:550-556 | the `size_range` setter takes the minimum size from the two lower bounds and the maximum size from the two upper bounds |
| Geometry.SizeRange | tkreform/base.py:543-548 | the `size_range` getter gives the one range that the setter turns into the current limits, so setting it back changes nothing |
| Geometry.SizePosRoundTrip | tkreform/base.py:486-500 | `size` and `pos` read the components `xgeo` wrote |
| Groups.FloorDiv | tkreform/groups.py:51 | `a // b` is the floor of the quotient, for either sign of `b` |
| Groups.FloorMod | tkreform/groups.py:52 | `a % b` has the sign of `b` and is smaller than it in magnitude |
| Groups.CellIndex | tkreform/groups.py:48-53 | `column * span + row == idx`; for a positive span every row is below the span |
| Groups.CellsDistinct | tkreform/groups.py:48-53 | distinct items get distinct cells |
| Groups.CellNext | tkreform/groups.py:48-53 | for a positive span, items fill a column top to bottom before moving to the next column |
| Groups.ItemGridder | tkreform/groups.py:50-53 | each item is gridded with its own column and row and the group's column span, and every other option is the caller's |
| Groups.GridAllFrame | tkreform/groups.py:48-53 | gridding changes only the placement of the group's widgets |
| Groups.GridAllLast | tkreform/groups.py:48-53 | the last occurrence of a widget in the group decides its cell |
| Groups.GriddingGroup.Grid | tkreform/groups.py:48-53 | places every item by the loop; a zero span raises ZeroDivisionError before any item is placed |
| Groups.MulOptions | tkreform/groups.py:60-64 | `group * g` passes `rowspan`, the paddings and `sticky` and drops `column`, `row` and `in_` |
| Groups.MulIgnoresCell | tkreform/groups.py:60-64 | the `column`, `row` and `in_` of `g` make no difference |
| Groups.GriddingGroup.Mul | tkreform/groups.py:55-65 | raises ValueError without `columnspan`, before gridding anything; otherwise grids by it and returns the same group; a zero span places nothing, raising ZeroDivisionError when there are items |
| Groups.SetupCalls | tkreform/groups.py:23-31 | `_setup_dict` keeps every existing list and adds an empty one exactly for a new sequence |
| Groups.CallsAfterOn | tkreform/groups.py:33-42 | after `on(s, append)(f)` the list for `s` is `[f]`, or the earlier list followed by `f` when appending; other sequences keep their lists |
| Groups.Dispatched | tkreform/groups.py:26-28 | the dispatcher for a sequence calls the list registered for it, and raises KeyError exactly when none is |
| Groups.SetupCallsOnce | tkreform/groups.py:23-31 | `_setup_dict` adds an empty list only for a new sequence; doing it twice is doing it once, and existing lists are kept |
| Groups.OnReplaceThenAppend | tkreform/groups.py:33-42 | replacing with `f`, then appending `g`, leaves exactly `[f, g]` |
| Groups.OnCommutes | tkreform/groups.py:33-42 | registrations for different sequences do not interfere |
| Groups.BindEachEffect | tkreform/groups.py:24-30 | setting up a sequence appends one dispatcher per occurrence of a widget in the group, keeps earlier handlers, and leaves other sequences and widgets alone |
| Groups.ActionGroup.constructor | tkreform/groups.py:19-21 | a new group has no call lists |
| Groups.ActionGroup.SetupDict | tkreform/groups.py:23-31 | on first sight of a sequence, binds the group's dispatcher with append on every member and starts an empty list; afterwards it changes nothing |
| Groups.ActionGroup.On | tkreform/groups.py:33-42 | sets up the sequence, then replaces its list by `[f]` or appends `f` |

## Left out

- The toolkit is an abstract record store, not Tk. Its own checks are not modelled: for example, it rejects a Gridder's fields passed as notebook tab options, or `add` on a widget that is not a menu. Menu item descriptors under a non-menu widget are recorded as entries.
- Toolkit.Toolkit.Destroy marks only the widget itself. What Tk does to the widget's descendants is not part of the model.
- The geometry string the toolkit reports is a parameter of the `Geometry` functions. How Tk merges the partial strings that the `size` and `pos` setters write into the current geometry is not modelled.
- Common.ParseInt accepts only an optional sign and ASCII digits. Python's `int` also accepts surrounding whitespace, underscores between digits and non-ASCII digits.
- Base.Forest.Children models slices with step 1 only. A slice with a step is not modelled.
- Events.Sort breaks ties between triples with the same ord and event word by name. Python leaves such triples in set iteration order, which varies between runs.
- Base.Forest.NewWindow creates the toplevel window it wraps. In the source, `Window` wraps a window the caller created.
- The linguist's initial destination, `locale.getdefaultlocale()`, is a constructor parameter. `GettextLinguist` and the abstract `Linguist` base class are not part of this model (they call into gettext).
- `W.sub` holds descriptor values. A nested `W` changed after it was put into a parent's children is not seen by the parent (no aliasing).
- Groups.ActionGroup members are widgets or windows. A nested action group as a member is not modelled. `Group.__getitem__` is plain tuple indexing and is not modelled.
- Event callbacks are identified by number. What a called function does is not modelled, and the dispatcher's result is the list of functions it calls, in order.
- Groups.GriddingGroup.Grid requires the caller's options not to name `column`, `columnspan` or `row`. In Python that call raises a TypeError for the duplicate keyword, and that error path is not modelled.
- `_Base.on`, the grid/pack/place wrappers and `__mul__` of `Widget` appear only through the toolkit calls they make (Toolkit.Toolkit.Bind, Base.Forest.Apply).
- Not part of this model (toolkit pass-throughs with no logic of their own):
  - `Widget`: `sync`, `image`, `width`, `height`, `size`, `font`, `callback`.
  - `Window`: `mode`, `alpha`, `top`, `fullscreen`, `icon`, `xicon`, `bgcolor`, `screenwh`, `loop`, `sub_window`, `on_protocol`, `update`, `wmhide`, `minimize`, `restore`, `menu`.
  - `_Base`: `__setitem__`, `__iter__`, `destroy`.
  - `Application`.
- The mainloop, real event delivery, images and fonts are I/O and are not modelled.
