/** The group helpers of `tkreform/groups.py`.

    A `GriddingGroup` lays its widgets out on a grid of a given column span,
    item `idx` going to column `idx // span` and row `idx % span` (Python's
    floor division and modulo). An `ActionGroup` keeps, per event sequence,
    the list of functions to call; the first time a sequence is used it binds
    one dispatcher for that sequence to each of its widgets, and the
    dispatcher calls the list as it is when the event fires.

    Group members are widgets or windows, referred to by their toolkit handle;
    `on(seq, append)` on a member is the toolkit's `bind(seq, f, append)`. */
module Groups {
  import opened Common
  import opened Directives
  import opened Toolkit

  /** Python's `a // b`: rounds toward negative infinity. */
  function FloorDiv(a: int, b: int): (q: int)
    requires b != 0
    ensures b > 0 ==> b * q <= a < b * q + b
    ensures b < 0 ==> b * q + b < a <= b * q
  {
    if b > 0 then a / b else (-a) / (-b)
  }

  /** Python's `a % b`: takes the sign of `b`. */
  function FloorMod(a: int, b: int): (r: int)
    requires b != 0
    ensures b > 0 ==> 0 <= r < b
    ensures b < 0 ==> b < r <= 0
  {
    a - b * FloorDiv(a, b)
  }

  /** The cell of item `idx`: (column, row). */
  function Cell(idx: int, span: int): (int, int)
    requires span != 0
  {
    (FloorDiv(idx, span), FloorMod(idx, span))
  }

  /** A cell determines its item: `column * span + row == idx`, so distinct
      items get distinct cells, and for a positive span the rows are
      `0 .. span - 1`. */
  lemma CellIndex(idx: int, span: int)
    requires span != 0
    ensures Cell(idx, span).0 * span + Cell(idx, span).1 == idx
    ensures span > 0 ==> 0 <= Cell(idx, span).1 < span
    ensures span > 0 && idx >= 0 ==> Cell(idx, span).0 >= 0
  {
  }

  lemma CellsDistinct(i: int, j: int, span: int)
    requires span != 0 && i != j
    ensures Cell(i, span) != Cell(j, span)
  {
    CellIndex(i, span);
    CellIndex(j, span);
  }

  /** Consecutive items fill a column before moving to the next: for a
      positive span, the item after `idx` is one row lower in the same
      column, or at row 0 of the next column. */
  lemma CellNext(idx: int, span: int)
    requires span > 0
    ensures var (c, r) := Cell(idx, span);
      Cell(idx + 1, span) == if r + 1 < span then (c, r + 1) else (c + 1, 0)
  {
    var (c, r) := Cell(idx, span);
    var (c1, r1) := Cell(idx + 1, span);
    CellIndex(idx, span);
    CellIndex(idx + 1, span);
    if r + 1 < span {
      assert c1 * span + r1 == c * span + (r + 1);
      CellUnique(c1, r1, c, r + 1, span);
    } else {
      assert c1 * span + r1 == (c + 1) * span + 0;
      CellUnique(c1, r1, c + 1, 0, span);
    }
  }

  /** Quotient and remainder are unique for a positive span. */
  lemma CellUnique(c: int, r: int, c1: int, r1: int, span: int)
    requires span > 0 && 0 <= r < span && 0 <= r1 < span
    requires c * span + r == c1 * span + r1
    ensures c == c1 && r == r1
  {
    if c != c1 {
      var (lo, hi, rlo, rhi) := if c < c1 then (c, c1, r, r1) else (c1, c, r1, r);
      assert (hi - lo) * span == rlo - rhi by {
        assert hi * span == lo * span + (hi - lo) * span;
      }
      MulAtLeast(hi - lo, span);
    }
  }

  lemma MulAtLeast(a: int, b: int)
    requires a >= 1 && b > 0
    ensures a * b >= b
  {
  }

  /** The grid options item `idx` is placed with: the caller's options with
      the item's column and row and the group's column span. */
  function ItemGridder(idx: int, span: int, opts: Gridder): (g: Gridder)
    requires span != 0
    ensures g.columnspan == Some(span)
    ensures g.column == Some(Cell(idx, span).0) && g.row == Some(Cell(idx, span).1)
    ensures g.(column := opts.column, columnspan := opts.columnspan, row := opts.row) == opts
  {
    opts.(column := Some(FloorDiv(idx, span)), columnspan := Some(span), row := Some(FloorMod(idx, span)))
  }

  /** The widgets after `grid(span, **opts)` has placed `cs[0]`, ..., `cs[|cs|-1]`
      in that order. */
  function GridAll(hs: seq<Handle>, cs: seq<nat>, span: int, opts: Gridder): (r: seq<Handle>)
    requires span != 0
    requires forall k :: 0 <= k < |cs| ==> cs[k] < |hs|
    ensures |r| == |hs|
    decreases |cs|
  {
    if cs == [] then hs
    else
      var k := |cs| - 1;
      var hs1 := GridAll(hs, cs[..k], span, opts);
      hs1[cs[k] := hs1[cs[k]].(placement := Some(Grid(ItemGridder(k, span, opts))))]
  }

  /** Gridding changes only the placement of the group's widgets. */
  lemma {:induction false} GridAllFrame(hs: seq<Handle>, cs: seq<nat>, span: int, opts: Gridder, h: nat)
    requires span != 0
    requires forall k :: 0 <= k < |cs| ==> cs[k] < |hs|
    requires h < |hs|
    ensures h !in cs ==> GridAll(hs, cs, span, opts)[h] == hs[h]
    ensures GridAll(hs, cs, span, opts)[h] == hs[h].(placement := GridAll(hs, cs, span, opts)[h].placement)
    decreases |cs|
  {
    if cs != [] {
      var n := |cs| - 1;
      GridAllFrame(hs, cs[..n], span, opts, h);
      if h !in cs {
        assert h !in cs[..n];
      }
    }
  }

  /** The last time a widget occurs in the group decides its cell. */
  lemma {:induction false} GridAllLast(hs: seq<Handle>, cs: seq<nat>, span: int, opts: Gridder, k: nat)
    requires span != 0
    requires forall j :: 0 <= j < |cs| ==> cs[j] < |hs|
    requires k < |cs| && cs[k] !in cs[k + 1..]
    ensures GridAll(hs, cs, span, opts)[cs[k]].placement == Some(Grid(ItemGridder(k, span, opts)))
    decreases |cs|
  {
    var n := |cs| - 1;
    if k < n {
      assert cs[n] in cs[k + 1..];
      var cs0 := cs[..n];
      assert cs0[k] == cs[k] && cs0[k + 1..] == cs[k + 1..n];
      GridAllLast(hs, cs0, span, opts, k);
    }
  }

  /** The options `group * g` passes on: everything but `column`, `row` and
      `in_`, which it drops. */
  function MulOptions(g: Gridder): (o: Gridder)
    ensures o.column.None? && o.columnspan.None? && o.row.None? && o.in_.None?
    ensures o.rowspan == g.rowspan && o.ipadx == g.ipadx && o.ipady == g.ipady
    ensures o.padx == g.padx && o.pady == g.pady && o.sticky == g.sticky
  {
    Gridder(rowspan := g.rowspan, ipadx := g.ipadx, ipady := g.ipady,
      padx := g.padx, pady := g.pady, sticky := g.sticky)
  }

  /** `group * g` places each item by `g`'s column span alone: any `column`,
      `row` or `in_` of `g` makes no difference. */
  lemma MulIgnoresCell(g: Gridder, c: Option<int>, r: Option<int>, i: Option<nat>)
    ensures MulOptions(g.(column := c, row := r, in_ := i)) == MulOptions(g)
  {
  }

  const NoColumnSpan := ValueError("'GriddingGroup' requires 'Gridder' to have columnspan.")

  /** A group of widgets laid out together on a grid. */
  class GriddingGroup {
    const tk: Toolkit
    const contents: seq<nat>

    constructor (tk: Toolkit, contents: seq<nat>)
      ensures this.tk == tk && this.contents == contents
    {
      this.tk := tk;
      this.contents := contents;
    }

    /** `grid(columnspan, **opts)`: places every item in its cell. A zero span
        fails on the first item, before any is placed. Options naming
        `column`, `columnspan` or `row` clash with the ones the group passes,
        so callers pass none of them. */
    method Grid(span: int, opts: Gridder) returns (r: Outcome)
      requires opts.column.None? && opts.columnspan.None? && opts.row.None?
      requires forall k :: 0 <= k < |contents| ==> contents[k] < |tk.handles|
      modifies tk`handles
      ensures span == 0 && contents != [] ==> r == Raised(ZeroDivisionError) && tk.handles == old(tk.handles)
      ensures span != 0 || contents == [] ==> r == Done
      ensures span != 0 ==> tk.handles == GridAll(old(tk.handles), contents, span, opts)
      ensures span == 0 ==> tk.handles == old(tk.handles)
    {
      if contents == [] {
        return Done;
      }
      if span == 0 {
        return Raised(ZeroDivisionError);
      }
      var k := 0;
      while k < |contents|
        invariant k <= |contents|
        invariant tk.handles == GridAll(old(tk.handles), contents[..k], span, opts)
      {
        assert contents[..k + 1][..k] == contents[..k];
        tk.Place(contents[k], Directive.Grid(ItemGridder(k, span, opts)));
        k := k + 1;
      }
      assert contents[..k] == contents;
      r := Done;
    }

    /** `group * g`: needs `g.columnspan`, then grids by it with the rest of
        `g`'s options and gives back the same group. */
    method Mul(g: Gridder) returns (r: Result<GriddingGroup>)
      requires forall k :: 0 <= k < |contents| ==> contents[k] < |tk.handles|
      modifies tk`handles
      ensures g.columnspan.None? ==> r == Err(NoColumnSpan) && tk.handles == old(tk.handles)
      ensures g.columnspan == Some(0) && contents != [] ==> r == Err(ZeroDivisionError) && tk.handles == old(tk.handles)
      ensures g.columnspan.Some? && (g.columnspan.value != 0 || contents == []) ==> r == Ok(this)
      ensures g.columnspan.Some? && g.columnspan.value != 0 ==>
        tk.handles == GridAll(old(tk.handles), contents, g.columnspan.value, MulOptions(g))
      ensures g.columnspan == Some(0) ==> tk.handles == old(tk.handles)
    {
      if g.columnspan.None? {
        return Err(NoColumnSpan);
      }
      var o := Grid(g.columnspan.value, MulOptions(g));
      if o.Raised? {
        return Err(o.error);
      }
      r := Ok(this);
    }
  }

  /** The functions registered per event sequence, by identity. */
  type Calls = map<string, seq<nat>>

  /** `_setup_dict(seq)` on the call lists: an empty list the first time. */
  function SetupCalls(calls: Calls, s: string): (r: Calls)
    ensures r.Keys == calls.Keys + {s}
    ensures forall t :: t in calls ==> r[t] == calls[t]
    ensures s !in calls ==> r[s] == []
  {
    if s in calls then calls else calls[s := []]
  }

  /** `on(seq, append)(f)` on the call lists. */
  function CallsAfterOn(calls: Calls, s: string, append: bool, f: nat): (r: Calls)
    ensures r.Keys == calls.Keys + {s}
    ensures forall t :: t in calls && t != s ==> r[t] == calls[t]
    ensures !append ==> r[s] == [f]
    ensures append ==> r[s] == (if s in calls then calls[s] else []) + [f]
  {
    var c := SetupCalls(calls, s);
    c[s := if append then c[s] + [f] else [f]]
  }

  /** What the dispatcher for `s` calls when the event fires: the functions
      registered for `s` at that moment, in order. */
  function Dispatched(calls: Calls, s: string): (r: Result<seq<nat>>)
    ensures r.Ok? <==> s in calls
    ensures r.Ok? ==> r.value == calls[s]
    ensures r.Err? ==> r.error == KeyError(s)
  {
    if s in calls then Ok(calls[s]) else Err(KeyError(s))
  }

  /** Setting up a sequence twice is setting it up once. */
  lemma SetupCallsOnce(calls: Calls, s: string)
    ensures SetupCalls(SetupCalls(calls, s), s) == SetupCalls(calls, s)
  {
  }

  /** Replacing then appending leaves exactly the two functions, in order,
      whatever was there before. */
  lemma OnReplaceThenAppend(calls: Calls, s: string, f: nat, g: nat)
    ensures Dispatched(CallsAfterOn(CallsAfterOn(calls, s, false, f), s, true, g), s) == Ok([f, g])
  {
    assert [f] + [g] == [f, g];
  }

  /** Registrations for different sequences do not interfere. */
  lemma OnCommutes(calls: Calls, s: string, a: bool, f: nat, t: string, b: bool, g: nat)
    requires s != t
    ensures CallsAfterOn(CallsAfterOn(calls, s, a, f), t, b, g) == CallsAfterOn(CallsAfterOn(calls, t, b, g), s, a, f)
  {
    var cs, ct := CallsAfterOn(calls, s, a, f), CallsAfterOn(calls, t, b, g);
    var st, ts := CallsAfterOn(cs, t, b, g), CallsAfterOn(ct, s, a, f);
    assert st.Keys == calls.Keys + {s} + {t} == ts.Keys;
    forall u | u in st
      ensures st[u] == ts[u]
    {
      if u == s {
        assert st[u] == cs[s] && (s in ct <==> s in calls);
        assert s in calls ==> ct[s] == calls[s];
      } else if u == t {
        assert ts[u] == ct[t] && (t in cs <==> t in calls);
        assert t in calls ==> cs[t] == calls[t];
      } else {
        assert st[u] == cs[u] == calls[u] == ct[u] == ts[u];
      }
    }
  }

  /** The handlers bound to a widget for sequence `s`, none if unbound. */
  function BoundFor(b: map<string, seq<Handler>>, s: string): seq<Handler> {
    if s in b then b[s] else []
  }

  /** The widgets after `d` has been bound with append to `s` on `cs[0]`, ...,
      `cs[|cs|-1]` in that order. */
  function BindEach(hs: seq<Handle>, cs: seq<nat>, s: string, d: Handler): (r: seq<Handle>)
    requires forall k :: 0 <= k < |cs| ==> cs[k] < |hs|
    ensures |r| == |hs|
    decreases |cs|
  {
    if cs == [] then hs
    else
      var k := |cs| - 1;
      var hs1 := BindEach(hs, cs[..k], s, d);
      hs1[cs[k] := hs1[cs[k]].(bindings := hs1[cs[k]].bindings[s := BoundAfter(hs1[cs[k]].bindings, s, d, true)])]
  }

  /** Binding across a group appends `d` to the handlers of `s` once per
      occurrence of a widget in the group, keeping what was bound before; the
      widget's other sequences and the other widgets are untouched. */
  lemma {:induction false} BindEachEffect(hs: seq<Handle>, cs: seq<nat>, s: string, d: Handler, h: nat)
    requires forall k :: 0 <= k < |cs| ==> cs[k] < |hs|
    requires h < |hs|
    ensures BindEach(hs, cs, s, d)[h] == if h !in cs then hs[h] else
      hs[h].(bindings := hs[h].bindings[s := BoundFor(hs[h].bindings, s) + seq(multiset(cs)[h], _ => d)])
    decreases |cs|
  {
    if cs != [] {
      var n := |cs| - 1;
      var cs0 := cs[..n];
      assert cs == cs0 + [cs[n]];
      BindEachEffect(hs, cs0, s, d, h);
      var m0: multiset<nat>, m1: multiset<nat> := multiset(cs0), multiset(cs);
      var b := hs[h].bindings;
      if h == cs[n] {
        assert m1[h] == m0[h] + 1;
        var m := m0[h];
        if h !in cs0 {
          assert m == 0;
          assert BoundAfter(b, s, d, true) == BoundFor(b, s) + seq(1, _ => d);
        } else {
          var b1 := b[s := BoundFor(b, s) + seq(m, _ => d)];
          assert BoundAfter(b1, s, d, true) == BoundFor(b, s) + seq(m + 1, _ => d);
          assert b1[s := BoundFor(b, s) + seq(m + 1, _ => d)] == b[s := BoundFor(b, s) + seq(m + 1, _ => d)];
        }
      } else {
        assert m1[h] == m0[h];
        assert h in cs <==> h in cs0;
      }
    }
  }

  /** A group binding the same handler to the same sequence on each of its
      widgets. */
  class ActionGroup {
    /** The group's identity, which its dispatchers carry. */
    const id: nat
    const tk: Toolkit
    const contents: seq<nat>
    var calls: Calls

    constructor (id: nat, tk: Toolkit, contents: seq<nat>)
      ensures this.id == id && this.tk == tk && this.contents == contents && calls == map[]
    {
      this.id := id;
      this.tk := tk;
      this.contents := contents;
      calls := map[];
    }

    /** `_setup_dict(s)`: the first time, binds this group's dispatcher for
        `s` to each member and starts an empty list; afterwards nothing. */
    method SetupDict(s: string)
      requires forall k :: 0 <= k < |contents| ==> contents[k] < |tk.handles|
      modifies this`calls, tk`handles
      ensures calls == SetupCalls(old(calls), s)
      ensures s in old(calls) ==> tk.handles == old(tk.handles)
      ensures s !in old(calls) ==> tk.handles == BindEach(old(tk.handles), contents, s, Dispatcher(id, s))
    {
      if s in calls {
        return;
      }
      var k := 0;
      while k < |contents|
        invariant k <= |contents|
        invariant tk.handles == BindEach(old(tk.handles), contents[..k], s, Dispatcher(id, s))
        invariant calls == old(calls)
      {
        assert contents[..k + 1][..k] == contents[..k];
        tk.Bind(contents[k], s, Dispatcher(id, s), true);
        k := k + 1;
      }
      assert contents[..k] == contents;
      calls := calls[s := []];
    }

    /** `on(s, append)(f)`: sets up `s`, then replaces its list by `[f]` or
        appends `f` to it. */
    method On(s: string, append: bool, f: nat)
      requires forall k :: 0 <= k < |contents| ==> contents[k] < |tk.handles|
      modifies this`calls, tk`handles
      ensures calls == CallsAfterOn(old(calls), s, append, f)
      ensures s in old(calls) ==> tk.handles == old(tk.handles)
      ensures s !in old(calls) ==> tk.handles == BindEach(old(tk.handles), contents, s, Dispatcher(id, s))
    {
      SetupDict(s);
      if append {
        calls := calls[s := calls[s] + [f]];
      } else {
        calls := calls[s := [f]];
      }
    }
  }
}
