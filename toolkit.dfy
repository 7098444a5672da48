/** An abstract stand-in for the tkinter toolkit that the library drives.

    Every toolkit widget (a window, a label, a menu, ...) is a `Handle` record
    kept in the `handles` sequence of one `Toolkit` object; a widget is referred
    to by its index there. A record holds only what the library reads back or
    what its operations change: the widget class, the construction options, the
    state option, the destroyed flag, the last placement directive, the entries
    added to it (menu entries, panes, notebook tabs), the menu bar (for a
    window) and the event bindings. The text a widget displays (the title, for
    a window) is kept apart, in `texts`, at the same index. */
module Toolkit {
  import opened Common
  import opened Directives

  /** Widget classes the library distinguishes. Label, Button and Message
      (tk or ttk) are the text-bearing ones. */
  datatype Kind =
    | Toplevel | Label | Button | Message | Frame | Menu | PanedWindow | Notebook
    | OtherKind(name: string)
  {
    predicate HasText() {
      Label? || Button? || Message?
    }
  }

  /** Construction options; option values are kept as text. */
  type Kwargs = map<string, string>

  /** What one `add` call registered on a container widget. */
  datatype Entry =
    | MenuEntry(itemType: string, data: Kwargs, submenu: Option<nat>)
    | Pane(child: nat)
    | Tab(child: nat, options: Directive)

  /** An event handler bound to a widget: a caller's function (by identity) or
      the dispatcher action group `group` binds for one event sequence. */
  datatype Handler = Function(id: nat) | Dispatcher(group: nat, sequence: string)

  datatype Handle = Handle(
    kind: Kind,
    parent: Option<nat>,
    kwargs: Kwargs,
    state: string,
    destroyed: bool,
    placement: Option<Directive>,
    entries: seq<Entry>,
    menu: Option<nat>,
    bindings: map<string, seq<Handler>>)

  /** The text a new widget shows: its `text` option, or empty. */
  function InitialText(kwargs: Kwargs): string {
    if "text" in kwargs then kwargs["text"] else ""
  }

  function InitialState(kwargs: Kwargs): string {
    if "state" in kwargs then kwargs["state"] else "normal"
  }

  class Toolkit {
    var handles: seq<Handle>
    /** The displayed text of each widget. */
    var texts: seq<string>

    ghost predicate Valid()
      reads this
    {
      |texts| == |handles|
    }

    constructor ()
      ensures Valid() && handles == [] && texts == []
    {
      handles := [];
      texts := [];
    }

    /** Construct a widget of class `kind` under `parent`. */
    method Create(kind: Kind, parent: Option<nat>, kwargs: Kwargs) returns (h: nat)
      modifies this
      ensures h == old(|handles|)
      ensures handles == old(handles) + [Handle(kind, parent, kwargs,
        InitialState(kwargs), false, None, [], None, map[])]
      ensures texts == old(texts) + [InitialText(kwargs)]
    {
      h := |handles|;
      handles := handles + [Handle(kind, parent, kwargs,
        InitialState(kwargs), false, None, [], None, map[])];
      texts := texts + [InitialText(kwargs)];
    }

    /** `widget["text"] = t` (for a window: `title(t)`). */
    method SetText(h: nat, t: string)
      requires h < |texts|
      modifies this`texts
      ensures texts == old(texts)[h := t]
    {
      texts := texts[h := t];
    }

    /** `widget["state"] = s`. */
    method SetState(h: nat, s: string)
      requires h < |handles|
      modifies this`handles
      ensures handles == old(handles)[h := old(handles[h]).(state := s)]
    {
      handles := handles[h := handles[h].(state := s)];
    }

    /** `widget.grid/pack/place(...)`: the geometry manager records `d`. */
    method Place(h: nat, d: Directive)
      requires h < |handles|
      modifies this`handles
      ensures handles == old(handles)[h := old(handles[h]).(placement := Some(d))]
    {
      handles := handles[h := handles[h].(placement := Some(d))];
    }

    /** `widget.add(...)`: a menu entry, a pane or a tab is appended. */
    method Add(h: nat, e: Entry)
      requires h < |handles|
      modifies this`handles
      ensures handles == old(handles)[h := old(handles[h]).(entries := old(handles[h].entries) + [e])]
    {
      handles := handles[h := handles[h].(entries := handles[h].entries + [e])];
    }

    /** `window["menu"] = m`. */
    method SetMenu(h: nat, m: nat)
      requires h < |handles|
      modifies this`handles
      ensures handles == old(handles)[h := old(handles[h]).(menu := Some(m))]
    {
      handles := handles[h := handles[h].(menu := Some(m))];
    }

    /** `widget.destroy()`; what the toolkit does to the widget's descendants
        is not part of this model. */
    method Destroy(h: nat)
      requires h < |handles|
      modifies this`handles
      ensures handles == old(handles)[h := old(handles[h]).(destroyed := true)]
    {
      handles := handles[h := handles[h].(destroyed := true)];
    }

    /** `widget.bind(sequence, f, add)`: with `add` the handler is appended to
        those bound for the sequence, otherwise it replaces them. */
    method Bind(h: nat, sequence: string, f: Handler, add: bool)
      requires h < |handles|
      modifies this`handles
      ensures handles == old(handles)[h := old(handles[h]).(bindings :=
        old(handles[h].bindings)[sequence := BoundAfter(old(handles[h].bindings), sequence, f, add)])]
    {
      handles := handles[h := handles[h].(bindings :=
        handles[h].bindings[sequence := BoundAfter(handles[h].bindings, sequence, f, add)])];
    }
  }

  function BoundAfter(b: map<string, seq<Handler>>, sequence: string, f: Handler, add: bool): seq<Handler> {
    if add && sequence in b then b[sequence] + [f] else [f]
  }
}
