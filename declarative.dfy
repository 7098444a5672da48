/** The declarative builder of `tkreform/declarative.py`: `W` objects describe
    a widget to be created, and `*` / `/` fill in their directive and children
    in place. The tree a loader walks is the value `Desc` that a `W` describes. */
module Declarative {
  import opened Common
  import opened Directives
  import opened Toolkit
  import opened Menu

  /** One entry of a child sequence: a widget descriptor or a menu item.
      `it` is present for an `M` descriptor (a menu that is also an entry of
      its parent menu). */
  datatype Desc =
    | WidgetDesc(kind: Kind, kwargs: Kwargs, controller: Option<Directive>, sub: seq<Desc>, it: Option<MenuSpec>)
    | ItemDesc(spec: MenuSpec)

  /** The widget descriptors among `items`, in order (menu items dropped). */
  function Widgets(items: seq<Desc>): (ws: seq<Desc>)
    ensures |ws| <= |items|
    ensures forall k :: 0 <= k < |ws| ==> ws[k].WidgetDesc? && ws[k] in items
  {
    if items == [] then []
    else
      var last := items[|items| - 1];
      Widgets(items[..|items| - 1]) + (if last.WidgetDesc? then [last] else [])
  }

  /** `Widgets` keeps each widget descriptor as often as it occurs, and
      keeps a run made only of widget descriptors whole. */
  lemma {:induction false} WidgetsCount(items: seq<Desc>)
    ensures forall d: Desc :: d.WidgetDesc? ==> multiset(Widgets(items))[d] == multiset(items)[d]
    ensures (forall k :: 0 <= k < |items| ==> items[k].WidgetDesc?) ==> Widgets(items) == items
    decreases |items|
  {
    if items != [] {
      var n := |items| - 1;
      assert items == items[..n] + [items[n]];
      WidgetsCount(items[..n]);
    }
  }

  /** The widget descriptors of two runs one after the other keep that
      order. */
  lemma {:induction false} WidgetsAppend(a: seq<Desc>, b: seq<Desc>)
    ensures Widgets(a + b) == Widgets(a) + Widgets(b)
    decreases |b|
  {
    if b == [] {
      assert a + b == a;
    } else {
      var n, ab := |b| - 1, a + b;
      assert ab[..|ab| - 1] == a + b[..n] && ab[|ab| - 1] == b[n];
      WidgetsAppend(a, b[..n]);
    }
  }

  /** Number of descriptors in a tree, used as the loader's termination measure. */
  function Size(d: Desc): nat {
    match d
    case WidgetDesc(_, _, _, sub, _) => 1 + SizeAll(sub)
    case ItemDesc(_) => 1
  }

  function SizeAll(items: seq<Desc>): nat {
    if items == [] then 0 else SizeAll(items[..|items| - 1]) + Size(items[|items| - 1])
  }

  lemma {:induction false} SizeAllPrefix(items: seq<Desc>, i: nat)
    requires i < |items|
    ensures SizeAll(items[..i]) + Size(items[i]) <= SizeAll(items)
    decreases |items|
  {
    if i < |items| - 1 {
      var init := items[..|items| - 1];
      assert init[..i] == items[..i] && init[i] == items[i];
      SizeAllPrefix(init, i);
    } else {
      assert items[..|items| - 1] == items[..i];
    }
  }

  /** Widgets of a one-longer prefix: the next item is appended when it is a
      widget descriptor. */
  lemma WidgetsStep(items: seq<Desc>, i: nat)
    requires i < |items|
    ensures Widgets(items[..i + 1]) == Widgets(items[..i]) + (if items[i].WidgetDesc? then [items[i]] else [])
  {
    assert items[..i + 1][..i] == items[..i];
  }

  /** The builder: a widget class, its options, a controller and children. */
  class W {
    const widget: Kind
    const kwargs: Kwargs
    var controller: Option<Directive>
    var sub: seq<Desc>
    const it: Option<MenuSpec>

    constructor (widget: Kind, kwargs: Kwargs)
      ensures this.widget == widget && this.kwargs == kwargs
      ensures controller == None && sub == [] && it == None
    {
      this.widget := widget;
      this.kwargs := kwargs;
      controller := None;
      sub := [];
      it := None;
    }

    /** `M(item, **kwargs)`: a Menu descriptor that carries `item`. */
    constructor M(item: MenuItem, kwargs: Kwargs)
      ensures widget == Menu && this.kwargs == kwargs && it == Some(item.Spec())
      ensures controller == None && sub == []
    {
      widget := Menu;
      this.kwargs := kwargs;
      controller := None;
      sub := [];
      it := Some(item.Spec());
    }

    /** `w * d`: set the controller, overwriting any earlier one. */
    method Mul(d: Directive) returns (r: W)
      modifies this
      ensures r == this
      ensures controller == Some(d) && sub == old(sub)
    {
      controller := Some(d);
      r := this;
    }

    /** `w / s`: set the children, overwriting any earlier ones. */
    method Div(s: seq<Desc>) returns (r: W)
      modifies this
      ensures r == this
      ensures sub == s && controller == old(controller)
    {
      sub := s;
      r := this;
    }

    /** The descriptor value this builder stands for at this moment. */
    function Describe(): Desc
      reads this
    {
      WidgetDesc(widget, kwargs, controller, sub, it)
    }
  }
}
