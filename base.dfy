/** The live widget tree of `tkreform/base.py`.

    Every `Window` and `Widget` wrapper is a node of one `Forest`; a node is
    referred to by its index in `nodes`, and its toolkit widget (`base`) is
    the toolkit handle with the same index. A node holds what the wrapper
    keeps: its ordered child list, its linguist (kept apart, in `linguists`)
    and its raw (untranslated) text or title. A window's raw title is
    always present; a widget has a raw text once it is a text-bearing widget or
    once its `text` has been assigned. A child is always created after its
    parent, so its index is larger. */
module Base {
  import opened Common
  import opened Directives
  import opened Toolkit
  import opened Declarative
  import opened Linguist

  datatype Node = Node(
    children: seq<nat>,
    raw: Option<string>,
    window: bool)

  /** The text a node displays for raw text `t`: the translation when there is
      a linguist; the previous text when the translation is MessageNotFound;
      any other error escapes. */
  function Shown(l: KVPairLinguist?, t: string, prev: string): Result<string>
    reads l
  {
    if l == null then Ok(t)
    else
      var tr := l.Translate(t);
      if tr.Ok? then tr
      else if tr.error.MessageNotFound? then Ok(prev)
      else tr
  }

  /** Only a KeyError escapes a translation. */
  lemma ShownErrors(l: KVPairLinguist?, t: string, prev: string)
    ensures Shown(l, t, prev).Err? ==> l != null && Shown(l, t, prev).error.KeyError?
  {
    if l != null && l.Translate(t).Err? {
      var e := l.Translate(t).error;
      assert e.KeyError? || e.MessageNotFound?;
    }
  }

  /** Showing the same raw text again changes nothing. */
  lemma ShownIdempotent(l: KVPairLinguist?, t: string, prev: string)
    requires Shown(l, t, prev).Ok?
    ensures Shown(l, t, Shown(l, t, prev).value) == Shown(l, t, prev)
  {
  }

  /** With a linguist whose destination is its base locale, a text of the base
      table is shown as itself. */
  lemma ShownIdentity(l: KVPairLinguist, t: string, prev: string)
    requires l.Valid() && l.dest == l.base && l.base in l.messages
    requires exists i :: 0 <= i < |l.messages[l.base]| && l.messages[l.base][i].1 == t
    ensures Shown(l, t, prev) == Ok(t)
  {
    TranslateIdentity(l, t);
  }

  /** A text missing from the base table leaves the displayed text as it was. */
  lemma ShownFallback(l: KVPairLinguist, t: string, prev: string)
    requires l.base in l.messages
    requires forall i :: 0 <= i < |l.messages[l.base]| ==> l.messages[l.base][i].1 != t
    ensures Shown(l, t, prev) == Ok(prev)
  {
    TranslateAbsent(l, t);
  }

  /** Whether `update_translation` re-applies the node's raw text: a window
      always does; a widget does when it has no children and a raw text. */
  predicate Refreshes(nd: Node) {
    nd.raw.Some? && (nd.window || nd.children == [])
  }

  /** Every child index is larger than its parent's and in range. */
  ghost predicate ChildrenAfter(sh: seq<seq<nat>>) {
    forall i, k :: 0 <= i < |sh| && 0 <= k < |sh[i]| ==> i < sh[i][k] < |sh|
  }

  ghost predicate ChildrenAfterIn(ns: seq<Node>) {
    forall i, k :: 0 <= i < |ns| && 0 <= k < |ns[i].children| ==> i < ns[i].children[k] < |ns|
  }

  /** `sh` lists the child lists of the nodes `ns`, in node order. */
  ghost predicate HasShape(ns: seq<Node>, sh: seq<seq<nat>>) {
    |sh| == |ns| && forall i :: 0 <= i < |ns| ==> ns[i].children == sh[i]
  }

  lemma ShapeChildrenAfter(ns: seq<Node>, sh: seq<seq<nat>>)
    requires ChildrenAfterIn(ns) && HasShape(ns, sh)
    ensures ChildrenAfter(sh)
  {
  }

  /** The nodes reached from `n` through child lists, `n` included. A child
      index that does not come after its parent is not followed (under
      `ChildrenAfter` there is none). */
  ghost function Subtree(sh: seq<seq<nat>>, n: nat): set<nat>
    requires n < |sh|
    decreases |sh| - n, 1
  {
    {n} + SubtreesOf(sh, n, |sh[n]|)
  }

  /** The subtrees of the first `j` children of `parent`. */
  ghost function SubtreesOf(sh: seq<seq<nat>>, parent: nat, j: nat): set<nat>
    requires parent < |sh| && j <= |sh[parent]|
    decreases |sh| - parent, 0, j
  {
    if j == 0 then {}
    else
      var c := sh[parent][j - 1];
      if parent < c < |sh| then SubtreesOf(sh, parent, j - 1) + Subtree(sh, c)
      else SubtreesOf(sh, parent, j - 1)
  }

  /** A subtree holds only its root and nodes after it. */
  lemma {:induction false} SubtreeAbove(sh: seq<seq<nat>>, n: nat)
    requires n < |sh|
    ensures forall m :: m in Subtree(sh, n) ==> n <= m
    decreases |sh| - n, 1
  {
    SubtreesOfAbove(sh, n, |sh[n]|);
  }

  /** The subtrees of a node's children hold only nodes after it. */
  lemma {:induction false} SubtreesOfAbove(sh: seq<seq<nat>>, p: nat, j: nat)
    requires p < |sh| && j <= |sh[p]|
    ensures forall m :: m in SubtreesOf(sh, p, j) ==> p < m
    decreases |sh| - p, 0, j
  {
    if j > 0 {
      SubtreesOfAbove(sh, p, j - 1);
      var c := sh[p][j - 1];
      if p < c < |sh| {
        SubtreeAbove(sh, c);
      }
    }
  }

  /** Taking more children takes more subtrees. */
  lemma {:induction false} SubtreesOfGrow(sh: seq<seq<nat>>, p: nat, j: nat, k: nat)
    requires p < |sh| && j <= k <= |sh[p]|
    ensures SubtreesOf(sh, p, j) <= SubtreesOf(sh, p, k)
    decreases k
  {
    if j < k {
      SubtreesOfGrow(sh, p, j, k - 1);
    }
  }

  /** `sub` tabulates the subtree of every node. */
  ghost predicate SubTable(sh: seq<seq<nat>>, sub: seq<set<nat>>) {
    |sub| == |sh| && forall i :: 0 <= i < |sh| ==> sub[i] == Subtree(sh, i)
  }

  ghost function SubtreeTable(sh: seq<seq<nat>>): (sub: seq<set<nat>>)
    ensures SubTable(sh, sub)
  {
    seq(|sh|, i requires 0 <= i < |sh| => Subtree(sh, i))
  }

  /** The union of the tabulated subtrees of `cs[..k]`. */
  ghost function PrefixUnion(sub: seq<set<nat>>, cs: seq<nat>, k: nat): set<nat>
    requires k <= |cs| && forall j :: 0 <= j < |cs| ==> cs[j] < |sub|
  {
    if k == 0 then {} else PrefixUnion(sub, cs, k - 1) + sub[cs[k - 1]]
  }

  /** Over a table, the union for the first `k` children is their subtrees. */
  lemma {:induction false} PrefixIsSubtrees(sh: seq<seq<nat>>, sub: seq<set<nat>>, n: nat, k: nat)
    requires ChildrenAfter(sh) && SubTable(sh, sub) && n < |sh| && k <= |sh[n]|
    ensures PrefixUnion(sub, sh[n], k) == SubtreesOf(sh, n, k)
    decreases k
  {
    if k > 0 {
      PrefixIsSubtrees(sh, sub, n, k - 1);
    }
  }

  /** The subtrees of the first `k` children lie in the subtree, root aside;
      those of all children make up exactly that. */
  lemma PrefixUnionOfChildren(sh: seq<seq<nat>>, sub: seq<set<nat>>, n: nat, k: nat)
    requires ChildrenAfter(sh) && SubTable(sh, sub) && n < |sh| && k <= |sh[n]|
    ensures n in sub[n]
    ensures PrefixUnion(sub, sh[n], k) <= sub[n] - {n}
    ensures k == |sh[n]| ==> PrefixUnion(sub, sh[n], k) == sub[n] - {n}
  {
    PrefixIsSubtrees(sh, sub, n, k);
    SubtreesOfGrow(sh, n, k, |sh[n]|);
    SubtreesOfAbove(sh, n, |sh[n]|);
  }

  /** What a translation refresh over the nodes `P` may change, going from
      linguists `ls0` and displayed texts `ts0` to `ls` and `ts`: only the
      linguists of `P`, and only the texts of those nodes of `P` that
      refresh. */
  ghost predicate Framed(ns: seq<Node>, ls0: seq<KVPairLinguist?>, ts0: seq<string>,
                         ls: seq<KVPairLinguist?>, ts: seq<string>, P: set<nat>) {
    && |ls| == |ls0| && |ts| == |ts0|
    && (forall i :: 0 <= i < |ls| && i !in P ==> ls[i] == ls0[i])
    && (forall i :: 0 <= i < |ts| && ts[i] != ts0[i] ==> i in P && i < |ns| && Refreshes(ns[i]))
  }

  /** Every node of `P` has linguist `l`, and every refreshing one shows its
      raw text through `l`, falling back to the text it showed in `ts0`. */
  ghost predicate Relabeled(ns: seq<Node>, ls: seq<KVPairLinguist?>, ts0: seq<string>, ts: seq<string>,
                            P: set<nat>, l: KVPairLinguist?)
    reads l
  {
    forall i :: 0 <= i < |ns| && i in P ==>
      && i < |ls| && ls[i] == l
      && (Refreshes(ns[i]) && i < |ts| && i < |ts0| ==> Shown(l, ns[i].raw.value, ts0[i]) == Ok(ts[i]))
  }

  lemma FramedWider(ns: seq<Node>, ls0: seq<KVPairLinguist?>, ts0: seq<string>,
                    ls: seq<KVPairLinguist?>, ts: seq<string>, P: set<nat>, Q: set<nat>)
    requires Framed(ns, ls0, ts0, ls, ts, P) && P <= Q
    ensures Framed(ns, ls0, ts0, ls, ts, Q)
  {
  }

  /** Two refreshes in a row, over `P` then over `S`, are one refresh over
      `P + S`. */
  lemma FramedThen(ns: seq<Node>, ls0: seq<KVPairLinguist?>, ts0: seq<string>,
                   ls1: seq<KVPairLinguist?>, ts1: seq<string>, ls2: seq<KVPairLinguist?>, ts2: seq<string>,
                   P: set<nat>, S: set<nat>)
    requires Framed(ns, ls0, ts0, ls1, ts1, P) && Framed(ns, ls1, ts1, ls2, ts2, S)
    ensures Framed(ns, ls0, ts0, ls2, ts2, P + S)
  {
    forall i | 0 <= i < |ts2| && ts2[i] != ts0[i]
      ensures i in P + S && i < |ns| && Refreshes(ns[i])
    {
      if ts1[i] == ts0[i] {
        assert ts2[i] != ts1[i];
      }
    }
  }

  /** After refreshes over `P` then `S` with the same linguist, every node of
      `P + S` shows its text through it: a node of both shows the same text
      the second time. */
  lemma RelabeledThen(ns: seq<Node>, ls0: seq<KVPairLinguist?>, ts0: seq<string>,
                      ls1: seq<KVPairLinguist?>, ts1: seq<string>, ls2: seq<KVPairLinguist?>, ts2: seq<string>,
                      P: set<nat>, S: set<nat>, l: KVPairLinguist?)
    requires Framed(ns, ls0, ts0, ls1, ts1, P) && Relabeled(ns, ls1, ts0, ts1, P, l)
    requires Framed(ns, ls1, ts1, ls2, ts2, S) && Relabeled(ns, ls2, ts1, ts2, S, l)
    ensures Relabeled(ns, ls2, ts0, ts2, P + S, l)
  {
    forall i | 0 <= i < |ns| && i in P + S
      ensures i < |ls2| && ls2[i] == l
      ensures Refreshes(ns[i]) && i < |ts2| && i < |ts0| ==> Shown(l, ns[i].raw.value, ts0[i]) == Ok(ts2[i])
    {
      if Refreshes(ns[i]) && i < |ts2| && i < |ts0| {
        if i in S && i in P {
          ShownIdempotent(l, ns[i].raw.value, ts0[i]);
        } else if i in S {
          assert ts1[i] == ts0[i];
        } else {
          assert ts2[i] == ts1[i];
        }
      }
    }
  }

  /** One child's cascade after the earlier ones, whether it completed
      (`done`) or stopped at an error. */
  lemma CascadeStep(ns: seq<Node>, ls0: seq<KVPairLinguist?>, ts0: seq<string>,
                    ls1: seq<KVPairLinguist?>, ts1: seq<string>, ls2: seq<KVPairLinguist?>, ts2: seq<string>,
                    P: set<nat>, S: set<nat>, D: set<nat>, l: KVPairLinguist?, done: bool)
    requires Framed(ns, ls0, ts0, ls1, ts1, P) && Relabeled(ns, ls1, ts0, ts1, P, l)
    requires Framed(ns, ls1, ts1, ls2, ts2, S) && (done ==> Relabeled(ns, ls2, ts1, ts2, S, l))
    requires P + S <= D
    ensures Framed(ns, ls0, ts0, ls2, ts2, P + S) && Framed(ns, ls0, ts0, ls2, ts2, D)
    ensures done ==> Relabeled(ns, ls2, ts0, ts2, P + S, l)
  {
    FramedThen(ns, ls0, ts0, ls1, ts1, ls2, ts2, P, S);
    FramedWider(ns, ls0, ts0, ls2, ts2, P + S, D);
    if done {
      RelabeledThen(ns, ls0, ts0, ls1, ts1, ls2, ts2, P, S, l);
    }
  }

  /** The child lists of the nodes `ns`. */
  ghost function Shape(ns: seq<Node>): (sh: seq<seq<nat>>)
    ensures HasShape(ns, sh)
  {
    seq(|ns|, i requires 0 <= i < |ns| => ns[i].children)
  }

  /** The placement a loaded widget is left with under controller `ctl`: a
      geometry directive is recorded, any other leaves none. */
  function Placed(ctl: Option<Directive>): Option<Directive> {
    if ctl.Some? && ctl.value.IsGeometry() then ctl else None
  }

  /** The widgets `hs` after the widgets of `cs` were destroyed. */
  function Destroyed(hs: seq<Handle>, cs: seq<nat>): seq<Handle> {
    seq(|hs|, h requires 0 <= h < |hs| => hs[h].(destroyed := hs[h].destroyed || h in cs))
  }

  /** Controller `ctl` is a menu binder that names window `h`. */
  predicate BindsMenu(ctl: Option<Directive>, h: nat) {
    ctl.Some? && ctl.value.BindMenu? && ctl.value.binder.win == Some(h)
  }

  /** Node `c` of `ns` was loaded from widget descriptor `d` under node `p`:
      a text-bearing widget recorded its `text` option as raw text; its
      toolkit widget has the descriptor's class and options, `p`'s widget as
      parent and the placement the descriptor's controller gives. */
  ghost predicate Made(ns: seq<Node>, hs: seq<Handle>, c: nat, d: Desc, p: nat) {
    && d.WidgetDesc? && c < |ns| && !ns[c].window && c < |hs|
    && ns[c].raw == (if d.kind.HasText() then Some(InitialText(d.kwargs)) else None)
    && hs[c].kind == d.kind && hs[c].kwargs == d.kwargs
    && hs[c].parent == Some(p) && hs[c].placement == Placed(d.controller)
  }

  /** The text node `c`, loaded from `d` while its parent had linguist `l`,
      shows: a text-bearing widget its `text` option through `l` (the option
      itself when the translation is MessageNotFound), any other widget the
      option as given. */
  ghost predicate ShowsLoaded(ts: seq<string>, l: KVPairLinguist?, c: nat, d: Desc)
    reads l
  {
    && d.WidgetDesc? && c < |ts|
    && (if d.kind.HasText() then Shown(l, InitialText(d.kwargs), InitialText(d.kwargs)) == Ok(ts[c])
        else ts[c] == InitialText(d.kwargs))
  }

  /** The toolkit widgets of `hs0` are still there in `hs` and keep everything
      but their menu bar, and, for widget `b`, the entries, which only grow. */
  ghost predicate HandlesKept(hs0: seq<Handle>, hs: seq<Handle>, b: nat) {
    && |hs0| <= |hs|
    && (forall h :: 0 <= h < |hs0| && h != b ==> hs[h] == hs0[h].(menu := hs[h].menu))
    && (b < |hs0| ==> hs[b] == hs0[b].(menu := hs[b].menu, entries := hs[b].entries)
                      && hs0[b].entries <= hs[b].entries)
  }

  /** Going from the state `ns0, ls0, hs0, ts0` to `ns, ls, hs, ts`, loading
      under node `n` only added: new nodes and widgets, new children at the
      end of `n`'s list, menu entries and panes on `n`'s widget and menu bars.
      Every new node has `n`'s linguist. */
  ghost predicate Extends(ns0: seq<Node>, ls0: seq<KVPairLinguist?>, hs0: seq<Handle>, ts0: seq<string>,
                          ns: seq<Node>, ls: seq<KVPairLinguist?>, hs: seq<Handle>, ts: seq<string>, n: nat) {
    && n < |ns0| <= |ns| && |ls0| == |ns0| && |ls| == |ns|
    && (forall i :: 0 <= i < |ns0| && i != n ==> ns[i] == ns0[i])
    && ns[n] == ns0[n].(children := ns[n].children)
    && ns0[n].children <= ns[n].children
    && (forall k :: |ns0[n].children| <= k < |ns[n].children| ==> |ns0| <= ns[n].children[k])
    && (forall i :: 0 <= i < |ls0| ==> ls[i] == ls0[i])
    && (forall i :: |ls0| <= i < |ls| ==> ls[i] == ls0[n])
    && HandlesKept(hs0, hs, n)
    && |ts0| <= |ts| && (forall h :: 0 <= h < |ts0| ==> ts[h] == ts0[h])
  }

  /** Two loads under the same node are one load. */
  lemma ExtendsThen(ns0: seq<Node>, ls0: seq<KVPairLinguist?>, hs0: seq<Handle>, ts0: seq<string>,
                    ns1: seq<Node>, ls1: seq<KVPairLinguist?>, hs1: seq<Handle>, ts1: seq<string>,
                    ns2: seq<Node>, ls2: seq<KVPairLinguist?>, hs2: seq<Handle>, ts2: seq<string>, n: nat)
    requires Extends(ns0, ls0, hs0, ts0, ns1, ls1, hs1, ts1, n)
    requires Extends(ns1, ls1, hs1, ts1, ns2, ls2, hs2, ts2, n)
    ensures Extends(ns0, ls0, hs0, ts0, ns2, ls2, hs2, ts2, n)
  {
    assert ns0[n].children <= ns1[n].children <= ns2[n].children;
  }

  /** A load under a node `c` that the load under `n` created is part of the
      load under `n`. */
  lemma ExtendsNested(ns0: seq<Node>, ls0: seq<KVPairLinguist?>, hs0: seq<Handle>, ts0: seq<string>,
                      ns1: seq<Node>, ls1: seq<KVPairLinguist?>, hs1: seq<Handle>, ts1: seq<string>,
                      ns2: seq<Node>, ls2: seq<KVPairLinguist?>, hs2: seq<Handle>, ts2: seq<string>, n: nat, c: nat)
    requires Extends(ns0, ls0, hs0, ts0, ns1, ls1, hs1, ts1, n) && |ns0| <= c && |hs0| <= c
    requires Extends(ns1, ls1, hs1, ts1, ns2, ls2, hs2, ts2, c)
    ensures Extends(ns0, ls0, hs0, ts0, ns2, ls2, hs2, ts2, n)
  {
  }

  /** Node `c` and everything below it were loaded from descriptor `d` under
      node `p`, whose linguist was `l`: `c` was made from `d` and shows its
      text through `l`, its widget holds exactly the entries its descriptors
      added, and its children were made, in order, from the widget
      descriptors among `d.sub`, each with its own subtree. */
  ghost predicate MadeTree(ns: seq<Node>, hs: seq<Handle>, ts: seq<string>, l: KVPairLinguist?,
                           c: nat, d: Desc, p: nat)
    reads l
    decreases d
  {
    && Made(ns, hs, c, d, p)
    && ShowsLoaded(ts, l, c, d)
    && |ns[c].children| == |Widgets(d.sub)|
    && hs[c].entries == Entries(d.kind, d.sub, ns[c].children)
    && forall k :: 0 <= k < |ns[c].children| ==> MadeTree(ns, hs, ts, l, ns[c].children[k], Widgets(d.sub)[k], c)
  }

  /** The nodes after `above` that `ns0` has are the same in `ns`, with the
      same texts, and their widgets keep everything but their menu bar. */
  ghost predicate Untouched(ns0: seq<Node>, hs0: seq<Handle>, ts0: seq<string>,
                            ns: seq<Node>, hs: seq<Handle>, ts: seq<string>, above: nat) {
    && |ns0| <= |ns| && |ns0| <= |hs0| <= |hs| && |ns0| <= |ts0| <= |ts|
    && forall i :: above < i < |ns0| ==> ns[i] == ns0[i] && hs[i] == hs0[i].(menu := hs[i].menu) && ts[i] == ts0[i]
  }

  /** A loaded subtree below `above` stays loaded while the nodes after
      `above` are untouched. */
  lemma {:induction false} MadeTreeKept(ns0: seq<Node>, hs0: seq<Handle>, ts0: seq<string>,
                                        ns: seq<Node>, hs: seq<Handle>, ts: seq<string>, l: KVPairLinguist?,
                                        c: nat, d: Desc, p: nat, above: nat)
    requires Untouched(ns0, hs0, ts0, ns, hs, ts, above) && ChildrenAfterIn(ns0) && above < c
    requires MadeTree(ns0, hs0, ts0, l, c, d, p)
    ensures MadeTree(ns, hs, ts, l, c, d, p)
    decreases d
  {
    assert ns[c] == ns0[c];
    forall k | 0 <= k < |ns[c].children|
      ensures MadeTree(ns, hs, ts, l, ns[c].children[k], Widgets(d.sub)[k], c)
    {
      MadeTreeKept(ns0, hs0, ts0, ns, hs, ts, l, ns0[c].children[k], Widgets(d.sub)[k], c, above);
    }
  }

  /** The children of node `n` from position `off` on were loaded, in order,
      from the widget descriptors `ws` under node `p` with linguist `l`. */
  ghost predicate MadeFrom(ns: seq<Node>, hs: seq<Handle>, ts: seq<string>, l: KVPairLinguist?,
                           n: nat, off: nat, ws: seq<Desc>, p: nat)
    reads l
  {
    && n < |ns| && off + |ws| <= |ns[n].children|
    && forall k :: 0 <= k < |ws| ==> MadeTree(ns, hs, ts, l, ns[n].children[off + k], ws[k], p)
  }

  /** Children loaded earlier stay loaded while the nodes after their parent
      are untouched and the parent's child list only grows. */
  lemma MadeFromKept(ns0: seq<Node>, hs0: seq<Handle>, ts0: seq<string>,
                     ns: seq<Node>, hs: seq<Handle>, ts: seq<string>, l: KVPairLinguist?,
                     n: nat, off: nat, ws: seq<Desc>, p: nat)
    requires Untouched(ns0, hs0, ts0, ns, hs, ts, n) && ChildrenAfterIn(ns0)
    requires MadeFrom(ns0, hs0, ts0, l, n, off, ws, p) && n < |ns| && ns0[n].children <= ns[n].children
    ensures MadeFrom(ns, hs, ts, l, n, off, ws, p)
  {
    forall k | 0 <= k < |ws|
      ensures MadeTree(ns, hs, ts, l, ns[n].children[off + k], ws[k], p)
    {
      var c := ns0[n].children[off + k];
      assert ns[n].children[off + k] == c && n < c;
      MadeTreeKept(ns0, hs0, ts0, ns, hs, ts, l, c, ws[k], p, n);
    }
  }

  /** Children loaded by earlier steps stay loaded through a later load under
      their parent. */
  lemma MadeKept(ns0: seq<Node>, ls0: seq<KVPairLinguist?>, hs0: seq<Handle>, ts0: seq<string>,
                 ns: seq<Node>, ls: seq<KVPairLinguist?>, hs: seq<Handle>, ts: seq<string>, l: KVPairLinguist?,
                 n: nat, off: nat, ws: seq<Desc>, p: nat)
    requires Extends(ns0, ls0, hs0, ts0, ns, ls, hs, ts, n) && ChildrenAfterIn(ns0)
    requires |ns0| <= |hs0| && |ns0| <= |ts0|
    requires MadeFrom(ns0, hs0, ts0, l, n, off, ws, p)
    ensures MadeFrom(ns, hs, ts, l, n, off, ws, p)
  {
    assert Untouched(ns0, hs0, ts0, ns, hs, ts, n);
    MadeFromKept(ns0, hs0, ts0, ns, hs, ts, l, n, off, ws, p);
  }

  /** Adding entries to the parent's own widget keeps its children loaded. */
  lemma MadeEntry(ns: seq<Node>, hs1: seq<Handle>, hs: seq<Handle>, ts: seq<string>, l: KVPairLinguist?,
                  n: nat, off: nat, ws: seq<Desc>, p: nat, es: seq<Entry>)
    requires MadeFrom(ns, hs1, ts, l, n, off, ws, p) && ChildrenAfterIn(ns)
    requires n < |hs1| && |ns| <= |hs1| && |ns| <= |ts|
    requires hs == hs1[n := hs1[n].(entries := hs1[n].entries + es)]
    ensures MadeFrom(ns, hs, ts, l, n, off, ws, p)
  {
    assert Untouched(ns, hs1, ts, ns, hs, ts, n);
    MadeFromKept(ns, hs1, ts, ns, hs, ts, l, n, off, ws, p);
  }

  /** One more child `c`, loaded from `d`, extends the loaded run by `d`. */
  lemma MadeAppend(ns: seq<Node>, hs: seq<Handle>, ts: seq<string>, l: KVPairLinguist?,
                   n: nat, off: nat, ws: seq<Desc>, d: Desc, p: nat, cs: seq<nat>, c: nat)
    requires MadeFrom(ns, hs, ts, l, n, off, ws, p) && |cs| == off + |ws|
    requires ns[n].children == cs + [c] && MadeTree(ns, hs, ts, l, c, d, p)
    ensures MadeFrom(ns, hs, ts, l, n, off, ws + [d], p)
  {
    forall k | 0 <= k < |ws| + 1
      ensures MadeTree(ns, hs, ts, l, ns[n].children[off + k], (ws + [d])[k], p)
    {
      if k < |ws| {
        assert (ws + [d])[k] == ws[k];
      }
    }
  }

  /** Loading descriptor `d` as child `c` of `n` gives a loaded subtree: `c`
      was made without controller and its own descriptors were loaded under
      it (`hs2` after `AddTree`), then its controller was applied (`hs3`
      after `Arrange`). */
  lemma LoadedTree(ns: seq<Node>, hs2: seq<Handle>, hs3: seq<Handle>, ts: seq<string>,
                   l: KVPairLinguist?, c: nat, d: Desc, n: nat)
    requires ChildrenAfterIn(ns) && |ns| <= |hs2| && |ns| <= |ts| && d.WidgetDesc?
    requires Made(ns, hs2, c, d.(controller := None), n) && ShowsLoaded(ts, l, c, d)
    requires |ns[c].children| == |Widgets(d.sub)| && MadeFrom(ns, hs2, ts, l, c, 0, Widgets(d.sub), c)
    requires hs2[c].entries == Entries(d.kind, d.sub, ns[c].children)
    requires |hs3| == |hs2|
    requires forall h :: 0 <= h < |hs3| && h != c ==> hs3[h] == hs2[h].(menu := hs3[h].menu)
    requires hs3[c] == hs2[c].(placement := if Placed(d.controller).Some? then Placed(d.controller) else hs2[c].placement)
    ensures MadeTree(ns, hs3, ts, l, c, d, n)
  {
    assert Untouched(ns, hs2, ts, ns, hs3, ts, c);
    MadeFromKept(ns, hs2, ts, ns, hs3, ts, l, c, 0, Widgets(d.sub), c);
    assert Made(ns, hs3, c, d, n);
  }

  /** The entries registering child widget `cb`, made from descriptor `d`,
      with a parent widget of class `pk`; none when the registration fails. */
  function Registration(pk: Kind, d: Desc, cb: nat): seq<Entry>
    requires d.WidgetDesc?
  {
    if pk == Menu && d.it.Some? then [MenuEntry(d.it.value.itemType, d.it.value.data, Some(cb))]
    else if pk == PanedWindow then [Pane(cb)]
    else if pk == Notebook && d.controller.Some? && !d.controller.value.Foreign? then [Tab(cb, d.controller.value)]
    else []
  }

  /** The entries that loading the descriptors `items` adds to a parent
      widget of class `pk` whose new children are `cs`: a menu item adds its
      own entry (its type and options) without submenu, a widget descriptor
      the registration of its child, in the order of `items`. */
  function Entries(pk: Kind, items: seq<Desc>, cs: seq<nat>): seq<Entry>
    requires |cs| == |Widgets(items)|
    decreases |items|
  {
    if items == [] then []
    else
      var init, last := items[..|items| - 1], items[|items| - 1];
      if last.ItemDesc? then
        Entries(pk, init, cs) + [MenuEntry(last.spec.itemType, last.spec.data, None)]
      else
        Entries(pk, init, cs[..|cs| - 1]) + Registration(pk, last, cs[|cs| - 1])
  }

  /** Widget `n` of `hs` holds the entries it held in `hs0` followed by the
      entries that loading `items` adds, with new children `cs`. */
  ghost predicate Registered(hs0: seq<Handle>, hs: seq<Handle>, n: nat, items: seq<Desc>, cs: seq<nat>) {
    && n < |hs0| && n < |hs| && |cs| == |Widgets(items)|
    && hs[n].entries == hs0[n].entries + Entries(hs0[n].kind, items, cs)
  }

  /** A menu item descriptor extends the entries of the run before it by its
      own entry (its type and options) without submenu. */
  lemma RegisteredItem(hs0: seq<Handle>, hs1: seq<Handle>, hs: seq<Handle>, n: nat, items: seq<Desc>, i: nat,
                       cs: seq<nat>)
    requires i < |items| && items[i].ItemDesc? && Registered(hs0, hs1, n, items[..i], cs)
    requires n < |hs| && hs[n].entries == hs1[n].entries + [MenuEntry(items[i].spec.itemType, items[i].spec.data, None)]
    ensures Registered(hs0, hs, n, items[..i + 1], cs)
  {
    WidgetsStep(items, i);
    assert items[..i + 1][..i] == items[..i];
  }

  /** A widget descriptor loaded as child `c` extends the entries of the run
      before it by the registration of `c`. */
  lemma RegisteredWidget(hs0: seq<Handle>, hs1: seq<Handle>, hs: seq<Handle>, n: nat, items: seq<Desc>, i: nat,
                         cs: seq<nat>, off: nat, c: nat)
    requires i < |items| && items[i].WidgetDesc? && off <= |cs| && Registered(hs0, hs1, n, items[..i], cs[off..])
    requires hs1[n].kind == hs0[n].kind
    requires n < |hs| && hs[n].entries == hs1[n].entries + Registration(hs1[n].kind, items[i], c)
    ensures Registered(hs0, hs, n, items[..i + 1], (cs + [c])[off..])
  {
    WidgetsStep(items, i);
    assert items[..i + 1][..i] == items[..i];
    assert (cs + [c])[off..] == cs[off..] + [c];
    assert (cs[off..] + [c])[..|cs| - off] == cs[off..];
  }

  /** A refresh of node `c` alone changes no other linguist and no other
      widget's text. */
  lemma FramedOne(ns: seq<Node>, ls0: seq<KVPairLinguist?>, ts0: seq<string>,
                  ls: seq<KVPairLinguist?>, ts: seq<string>, c: nat)
    requires Framed(ns, ls0, ts0, ls, ts, {c}) && c < |ns|
    ensures forall i :: 0 <= i < |ls| && i != c ==> ls[i] == ls0[i]
    ensures forall h :: 0 <= h < |ts| && h != c ==> ts[h] == ts0[h]
  {
  }

  /** A new childless node `c` made from `d`, showing the `text` option
      before its linguist was set to `l`, shows it through `l` afterwards. */
  lemma ShowsAdded(ns: seq<Node>, ls0: seq<KVPairLinguist?>, ts0: seq<string>,
                   ls: seq<KVPairLinguist?>, ts: seq<string>, l: KVPairLinguist?, c: nat, d: Desc)
    requires d.WidgetDesc? && c < |ns| && c < |ts0|
    requires ns[c] == Node([], if d.kind.HasText() then Some(InitialText(d.kwargs)) else None, false)
    requires ts0[c] == InitialText(d.kwargs)
    requires Framed(ns, ls0, ts0, ls, ts, {c}) && Relabeled(ns, ls, ts0, ts, {c}, l)
    ensures ShowsLoaded(ts, l, c, d)
  {
    assert Refreshes(ns[c]) <==> d.kind.HasText();
    if !d.kind.HasText() {
      assert ts[c] == ts0[c];
    }
  }

  /** Adding child `c` (a new node with a new widget) to node `n` and giving
      it `n`'s linguist is a load under `n`. */
  lemma ExtendsByChild(ns0: seq<Node>, ls0: seq<KVPairLinguist?>, hs0: seq<Handle>, ts0: seq<string>,
                       ns: seq<Node>, ls: seq<KVPairLinguist?>, hs: seq<Handle>, ts: seq<string>, n: nat, c: nat)
    requires n < |ns0| && |ls0| == |ns0| && c == |ns0|
    requires |ns| == c + 1 && ns[..c] == ns0[n := ns0[n].(children := ns0[n].children + [c])]
    requires |ls| == |ns| && ls[c] == ls0[n] && forall i :: 0 <= i < c ==> ls[i] == ls0[i]
    requires |hs| == |hs0| + 1 && hs[..|hs0|] == hs0 && c == |hs0|
    requires |ts0| <= |ts| && forall h :: 0 <= h < |ts0| ==> ts[h] == ts0[h]
    ensures Extends(ns0, ls0, hs0, ts0, ns, ls, hs, ts, n)
  {
    assert forall i :: 0 <= i < |ns0| && i != n ==> ns[i] == ns[..c][i];
    assert ns[n] == ns[..c][n];
    assert forall h :: 0 <= h < |hs0| ==> hs[h] == hs[..|hs0|][h];
  }

  /** Changing only menu bars, and anything of widgets created by the load,
      keeps a load under `n` a load under `n`. */
  lemma ExtendsRetouch(ns0: seq<Node>, ls0: seq<KVPairLinguist?>, hs0: seq<Handle>, ts0: seq<string>,
                       ns: seq<Node>, ls: seq<KVPairLinguist?>, hs1: seq<Handle>, hs: seq<Handle>, ts: seq<string>, n: nat)
    requires Extends(ns0, ls0, hs0, ts0, ns, ls, hs1, ts, n)
    requires |hs| == |hs1| && forall h :: 0 <= h < |hs0| ==> hs[h] == hs1[h].(menu := hs[h].menu)
    ensures Extends(ns0, ls0, hs0, ts0, ns, ls, hs, ts, n)
  {
  }

  /** Adding entries to `n`'s own widget keeps a load under `n` one. */
  lemma ExtendsEntry(ns0: seq<Node>, ls0: seq<KVPairLinguist?>, hs0: seq<Handle>, ts0: seq<string>,
                     ns: seq<Node>, ls: seq<KVPairLinguist?>, hs1: seq<Handle>, hs: seq<Handle>, ts: seq<string>,
                     n: nat, es: seq<Entry>)
    requires Extends(ns0, ls0, hs0, ts0, ns, ls, hs1, ts, n) && n < |hs1|
    requires hs == hs1[n := hs1[n].(entries := hs1[n].entries + es)]
    ensures Extends(ns0, ls0, hs0, ts0, ns, ls, hs, ts, n)
  {
    if n < |hs0| {
      assert hs0[n].entries <= hs1[n].entries <= hs[n].entries;
    }
  }

  /** Every MenuBinder in the descriptors names an existing widget (one of
      the first `bound`). */
  ghost predicate RefsIn(items: seq<Desc>, bound: nat)
    decreases SizeAll(items), 1, |items|
  {
    items == [] || (RefsIn(items[..|items| - 1], bound) && RefOk(items[|items| - 1], bound))
  }

  ghost predicate RefOk(d: Desc, bound: nat)
    decreases Size(d), 0, 0
  {
    d.WidgetDesc? ==>
      && (d.controller.Some? && d.controller.value.BindMenu? && d.controller.value.binder.win.Some? ==>
            d.controller.value.binder.win.value < bound)
      && RefsIn(d.sub, bound)
  }

  lemma {:induction false} RefsAt(items: seq<Desc>, bound: nat, i: nat)
    requires RefsIn(items, bound) && i < |items|
    ensures RefOk(items[i], bound)
    decreases |items|
  {
    if i < |items| - 1 {
      assert items[..|items| - 1][i] == items[i];
      RefsAt(items[..|items| - 1], bound, i);
    }
  }

  lemma {:induction false} RefsGrow(items: seq<Desc>, bound: nat, more: nat)
    requires RefsIn(items, bound) && bound <= more
    ensures RefsIn(items, more)
    decreases SizeAll(items), 1, |items|
  {
    if items != [] {
      RefsGrow(items[..|items| - 1], bound, more);
      RefOkGrow(items[|items| - 1], bound, more);
    }
  }

  lemma {:induction false} RefOkGrow(d: Desc, bound: nat, more: nat)
    requires RefOk(d, bound) && bound <= more
    ensures RefOk(d, more)
    decreases Size(d), 0, 0
  {
    if d.WidgetDesc? {
      RefsGrow(d.sub, bound, more);
    }
  }

  /** Descriptors that load without error under a widget of class `pk` when
      no linguist is involved: no controller is a foreign value, and a child
      of a notebook has a controller (its tab options). */
  ghost predicate Loadable(pk: Kind, items: seq<Desc>)
    decreases SizeAll(items), 1, |items|
  {
    items == [] || (Loadable(pk, items[..|items| - 1]) && LoadableOne(pk, items[|items| - 1]))
  }

  ghost predicate LoadableOne(pk: Kind, d: Desc)
    decreases Size(d), 0, 0
  {
    d.WidgetDesc? ==>
      && (d.controller.Some? ==> !d.controller.value.Foreign?)
      && (pk == Notebook ==> d.controller.Some?)
      && Loadable(d.kind, d.sub)
  }

  lemma {:induction false} LoadableAt(pk: Kind, items: seq<Desc>, i: nat)
    requires Loadable(pk, items) && i < |items|
    ensures LoadableOne(pk, items[i])
    decreases |items|
  {
    if i < |items| - 1 {
      assert items[..|items| - 1][i] == items[i];
      LoadableAt(pk, items[..|items| - 1], i);
    }
  }

  /** The exceptions loading can raise: a translation's KeyError, the
      AttributeError of a notebook child without tab options, and
      WidgetNotArranged for a controller of no known kind. */
  predicate LoadError(e: Error) {
    e.KeyError? || e.AttributeError? || e == WidgetNotArranged
  }

  /** Python's reading of a slice bound (step 1) over a list of length
      `len`: absent gives `dflt`; a negative bound counts from the end; the
      result is clamped into `0..len`. */
  function SliceBound(b: Option<int>, dflt: nat, len: nat): (r: nat)
    requires dflt <= len
    ensures r <= len
    ensures b.None? ==> r == dflt
    ensures b.Some? && 0 <= b.value <= len ==> r == b.value
    ensures b.Some? && -(len as int) <= b.value < 0 ==> r == b.value + len
    ensures b.Some? && b.value > len ==> r == len
    ensures b.Some? && b.value < -(len as int) ==> r == 0
  {
    if b.None? then dflt
    else if b.value < -(len as int) then 0
    else if b.value < 0 then b.value + len
    else if b.value > len then len
    else b.value
  }

  class Forest {
    const tk: Toolkit
    var nodes: seq<Node>
    /** The linguist of each node, at the node's index. */
    var linguists: seq<KVPairLinguist?>

    /** Node `i` wraps toolkit widget `i` (every widget is created together
        with its node), children come after their parent, windows have a raw
        title. */
    ghost predicate Valid()
      reads this, tk
    {
      && tk.Valid()
      && |linguists| == |nodes| == |tk.handles|
      && ChildrenAfterIn(nodes)
      && (forall i :: 0 <= i < |nodes| && nodes[i].window ==> nodes[i].raw.Some?)
    }

    /** An empty forest over a fresh toolkit. */
    constructor ()
      ensures Valid() && fresh(tk) && nodes == [] && linguists == []
    {
      tk := new Toolkit();
      nodes := [];
      linguists := [];
    }

    /** The `text` property (a window's `title`): what the node's toolkit
        widget displays, as opposed to the raw text it records. */
    function Text(n: nat): (r: string)
      requires Valid() && n < |nodes|
      reads this, tk
      ensures r == tk.texts[n]
    {
      tk.texts[n]
    }

    /** `__getitem__` with an int index: Python indexing of the child list,
        negative indices counting from the end. */
    function Child(n: nat, i: int): (r: Result<nat>)
      requires Valid() && n < |nodes|
      reads this, tk
      ensures r.Ok? <==> -|nodes[n].children| <= i < |nodes[n].children|
      ensures r.Ok? ==> r.value == nodes[n].children[if i < 0 then i + |nodes[n].children| else i]
      ensures r.Ok? ==> n < r.value < |nodes|
      ensures r.Err? ==> r.error == IndexError
    {
      var cs := nodes[n].children;
      if 0 <= i < |cs| then Ok(cs[i])
      else if -|cs| <= i < 0 then Ok(cs[i + |cs|])
      else Err(IndexError)
    }

    /** `__getitem__` with a slice `[start:stop]`: the children from the
        first bound up to the second, each bound as Python reads it. */
    function Children(n: nat, start: Option<int>, stop: Option<int>): (r: seq<nat>)
      requires Valid() && n < |nodes|
      reads this, tk
      ensures var cs := nodes[n].children;
        var lo, hi := SliceBound(start, 0, |cs|), SliceBound(stop, |cs|, |cs|);
        && |r| == (if lo < hi then hi - lo else 0)
        && forall k :: 0 <= k < |r| ==> r[k] == cs[lo + k]
    {
      var cs := nodes[n].children;
      var lo, hi := SliceBound(start, 0, |cs|), SliceBound(stop, |cs|, |cs|);
      if lo < hi then cs[lo..hi] else []
    }

    /** `add_widget(kind, **kwargs)`: create a toolkit widget under this node's
        widget, wrap it as a new node without linguist and append it as the
        last child. */
    method AddWidget(n: nat, kind: Kind, kwargs: Kwargs) returns (c: nat)
      requires Valid() && n < |nodes|
      modifies this, tk
      ensures Valid()
      ensures c == old(|nodes|)
      ensures nodes == old(nodes)[n := old(nodes[n]).(children := old(nodes[n].children) + [c])]
        + [Node([], if kind.HasText() then Some(InitialText(kwargs)) else None, false)]
      ensures linguists == old(linguists) + [null]
      ensures tk.handles == old(tk.handles) + [Handle(kind, Some(n), kwargs,
        InitialState(kwargs), false, None, [], None, map[])]
      ensures tk.texts == old(tk.texts) + [InitialText(kwargs)]
    {
      var h := tk.Create(kind, Some(n), kwargs);
      c := |nodes|;
      var raw := if kind.HasText() then Some(InitialText(kwargs)) else None;
      nodes := nodes[n := nodes[n].(children := nodes[n].children + [c])] + [Node([], raw, false)];
      linguists := linguists + [null];
    }

    /** Assign the raw text (or raw title) `t`: it is always recorded; the
        displayed text becomes `Shown`, and stays as it was when the
        translation is MessageNotFound. */
    method SetText(n: nat, t: string) returns (r: Outcome)
      requires Valid() && n < |nodes|
      modifies this`nodes, tk`texts
      ensures Valid()
      ensures nodes == old(nodes)[n := old(nodes[n]).(raw := Some(t))]
      ensures var s := Shown(linguists[n], t, old(tk.texts[n]));
        && (s.Ok? ==> r == Done && tk.texts == old(tk.texts)[n := s.value])
        && (s.Err? ==> r == Raised(s.error) && tk.texts == old(tk.texts))
      ensures r.Raised? ==> r.error.KeyError?
      ensures linguists[n] == null ==> r == Done && Text(n) == t
    {
      nodes := nodes[n := nodes[n].(raw := Some(t))];
      var b := n;
      var s := Shown(linguists[n], t, tk.texts[b]);
      ShownErrors(linguists[n], t, tk.texts[b]);
      if s.Err? {
        return Raised(s.error);
      }
      tk.SetText(b, s.value);
      r := Done;
    }

    /** The `linguist` setter followed by `update_translation`: store the
        linguist, re-apply the raw text if the node refreshes, then give every
        child the same linguist, recursively. Stops at the first error. `sh`
        names the child lists and `sub` the subtree of each node; the cascade
        changes neither. */
    method SetLinguist(n: nat, l: KVPairLinguist?, ghost sh: seq<seq<nat>>, ghost sub: seq<set<nat>>)
      returns (r: Outcome)
      requires Valid() && n < |nodes| && HasShape(nodes, sh) && SubTable(sh, sub)
      modifies this`linguists, tk`texts
      decreases |nodes| - n, 1
      ensures Valid()
      ensures linguists[n] == l
      ensures Framed(nodes, old(linguists), old(tk.texts), linguists, tk.texts, sub[n])
      ensures r.Done? ==> Relabeled(nodes, linguists, old(tk.texts), tk.texts, sub[n], l)
      ensures r.Raised? ==> l != null && r.error.KeyError?
    {
      ShapeChildrenAfter(nodes, sh);
      PrefixUnionOfChildren(sh, sub, n, 0);
      ghost var ls0, ts0 := linguists, tk.texts;
      r := Relabel(n, l);
      if r.Raised? {
        FramedWider(nodes, ls0, ts0, linguists, tk.texts, {n}, sub[n]);
        return;
      }
      ghost var ls1, ts1 := linguists, tk.texts;
      r := SetChildrenLinguist(n, l, sh, sub);
      CascadeStep(nodes, ls0, ts0, ls1, ts1, linguists, tk.texts, {n}, sub[n] - {n}, sub[n], l, r.Done?);
    }

    /** The first half of the `linguist` setter: store the linguist and
        re-apply the raw text through it if the node refreshes. */
    method Relabel(n: nat, l: KVPairLinguist?) returns (r: Outcome)
      requires Valid() && n < |nodes|
      modifies this`linguists, tk`texts
      ensures Valid()
      ensures linguists[n] == l
      ensures Framed(nodes, old(linguists), old(tk.texts), linguists, tk.texts, {n})
      ensures r.Done? ==> Relabeled(nodes, linguists, old(tk.texts), tk.texts, {n}, l)
      ensures r.Raised? ==> l != null && r.error.KeyError?
    {
      linguists := linguists[n := l];
      var b := n;
      if Refreshes(nodes[n]) {
        var s := Shown(l, nodes[n].raw.value, tk.texts[b]);
        ShownErrors(l, nodes[n].raw.value, tk.texts[b]);
        if s.Err? {
          return Raised(s.error);
        }
        tk.SetText(b, s.value);
      }
      r := Done;
    }

    /** The loop of `update_translation`: set the linguist of each child in
        turn, stopping at the first error. */
    method SetChildrenLinguist(n: nat, l: KVPairLinguist?, ghost sh: seq<seq<nat>>, ghost sub: seq<set<nat>>)
      returns (r: Outcome)
      requires Valid() && n < |nodes| && HasShape(nodes, sh) && SubTable(sh, sub)
      modifies this`linguists, tk`texts
      decreases |nodes| - n, 0
      ensures Valid()
      ensures Framed(nodes, old(linguists), old(tk.texts), linguists, tk.texts, sub[n] - {n})
      ensures r.Done? ==> Relabeled(nodes, linguists, old(tk.texts), tk.texts, sub[n] - {n}, l)
      ensures r.Raised? ==> l != null && r.error.KeyError?
    {
      ShapeChildrenAfter(nodes, sh);
      ghost var ls0, ts0 := linguists, tk.texts;
      var cs := nodes[n].children;
      ghost var P: set<nat> := {};
      var k := 0;
      while k < |cs|
        invariant 0 <= k <= |cs| && cs == sh[n]
        invariant Valid()
        invariant P == PrefixUnion(sub, cs, k)
        invariant Framed(nodes, ls0, ts0, linguists, tk.texts, P)
        invariant Relabeled(nodes, linguists, ts0, tk.texts, P, l)
      {
        ghost var lsk, tsk := linguists, tk.texts;
        ghost var S := sub[cs[k]];
        r := SetLinguist(cs[k], l, sh, sub);
        PrefixUnionOfChildren(sh, sub, n, k + 1);
        CascadeStep(nodes, ls0, ts0, lsk, tsk, linguists, tk.texts, P, S, sub[n] - {n}, l, r.Done?);
        if r.Raised? {
          return;
        }
        P := P + S;
        k := k + 1;
      }
      PrefixUnionOfChildren(sh, sub, n, k);
      r := Done;
    }

    /** `apply(geo)`: a grid, pack or place directive places the widget; a
        MenuBinder with a window makes this widget that window's menu bar; a
        NotebookAdder and a MenuBinder without window do nothing; any other
        value raises WidgetNotArranged. */
    method Apply(n: nat, d: Directive) returns (r: Outcome)
      requires Valid() && n < |nodes|
      requires d.BindMenu? && d.binder.win.Some? ==> d.binder.win.value < |tk.handles|
      modifies tk`handles
      ensures Valid()
      ensures r == (if d.Foreign? then Raised(WidgetNotArranged) else Done)
      ensures d.IsGeometry() ==>
        tk.handles == old(tk.handles)[n := old(tk.handles[n]).(placement := Some(d))]
      ensures d.BindMenu? && d.binder.win.Some? ==>
        tk.handles == old(tk.handles)[d.binder.win.value :=
          old(tk.handles[d.binder.win.value]).(menu := Some(n))]
      ensures d.AddTab? || d.Foreign? || (d.BindMenu? && d.binder.win.None?) ==> tk.handles == old(tk.handles)
    {
      match d
      case Grid(_) => tk.Place(n, d); r := Done;
      case Pack(_) => tk.Place(n, d); r := Done;
      case Place(_) => tk.Place(n, d); r := Done;
      case BindMenu(binder) =>
        if binder.win.Some? {
          tk.SetMenu(binder.win.value, n);
        }
        r := Done;
      case AddTab(_) => r := Done;
      case Foreign(_) => r := Raised(WidgetNotArranged);
    }

    /** The `disabled` property: the widget's state is "disabled". */
    function Disabled(n: nat): (r: bool)
      requires Valid() && n < |nodes|
      reads this, tk
      ensures r <==> tk.handles[n].state == "disabled"
    {
      tk.handles[n].state == "disabled"
    }

    /** Setting `disabled`: the state becomes "disabled" or "normal". */
    method SetDisabled(n: nat, st: bool)
      requires Valid() && n < |nodes|
      modifies tk`handles
      ensures Valid() && Disabled(n) == st
      ensures tk.handles == old(tk.handles)[n :=
        old(tk.handles[n]).(state := if st then "disabled" else "normal")]
    {
      tk.SetState(n, if st then "disabled" else "normal");
    }

    /** `Window(base)` over a new toplevel toolkit window: a node without
        children or linguist whose raw title is the title the window has. */
    method NewWindow(kwargs: Kwargs) returns (w: nat)
      requires Valid()
      modifies this, tk
      ensures Valid() && w == old(|nodes|)
      ensures nodes == old(nodes) + [Node([], Some(InitialText(kwargs)), true)]
      ensures linguists == old(linguists) + [null]
      ensures tk.handles == old(tk.handles) + [Handle(Toplevel, None, kwargs, InitialState(kwargs), false, None, [], None, map[])]
      ensures tk.texts == old(tk.texts) + [InitialText(kwargs)]
      ensures Text(w) == nodes[w].raw.value
    {
      var h := tk.Create(Toplevel, None, kwargs);
      w := |nodes|;
      nodes := nodes + [Node([], Some(tk.texts[h]), true)];
      linguists := linguists + [null];
    }

    /** The first part of loading one widget descriptor: add the child, push
        this node's linguist onto it, and register it with a menu (for an `M`
        descriptor), a paned window or a notebook. */
    method AddChild(n: nat, d: Desc) returns (r: Outcome, c: nat)
      requires Valid() && n < |nodes| && d.WidgetDesc?
      modifies this, tk
      ensures Valid()
      ensures Extends(old(nodes), old(linguists), old(tk.handles), old(tk.texts), nodes, linguists, tk.handles, tk.texts, n)
      ensures c == old(|nodes|) && nodes[n].children == old(nodes[n].children) + [c]
      ensures c < |nodes| && nodes[c].children == [] && Made(nodes, tk.handles, c, d.(controller := None), n)
      ensures tk.handles[c].entries == []
      ensures r.Done? ==> ShowsLoaded(tk.texts, old(linguists[n]), c, d)
      ensures r.Done? ==> tk.handles[n].entries == old(tk.handles[n].entries) + Registration(old(tk.handles[n].kind), d, c)
      ensures r.Raised? ==> tk.handles[n].entries == old(tk.handles[n].entries)
      ensures r.Raised? ==> LoadError(r.error) && (r.error.KeyError? ==> old(linguists[n]) != null)
      ensures r.Raised? && !r.error.KeyError? ==>
        old(tk.handles[n].kind) == Notebook && (d.controller.None? || d.controller.value.Foreign?)
    {
      ghost var ns0, ls0, hs0, ts0 := nodes, linguists, tk.handles, tk.texts;
      var l := linguists[n];
      c := AddWidget(n, d.kind, d.kwargs);
      ghost var sh := Shape(nodes);
      assert Subtree(sh, c) == {c};
      ghost var lsA, tsA := linguists, tk.texts;
      r := SetLinguist(c, l, sh, SubtreeTable(sh));
      FramedOne(nodes, lsA, tsA, linguists, tk.texts, c);
      ExtendsByChild(ns0, ls0, hs0, ts0, nodes, linguists, tk.handles, tk.texts, n, c);
      if r.Raised? {
        return;
      }
      ShowsAdded(nodes, lsA, tsA, linguists, tk.texts, l, c, d);
      ghost var hs1 := tk.handles;
      r := Register(n, c, d);
      ExtendsEntry(ns0, ls0, hs0, ts0, nodes, linguists, hs1, tk.handles, tk.texts, n,
        Registration(hs1[n].kind, d, c));
    }

    /** Register child `c` with this node's widget: an `M` descriptor under a
        menu adds a cascade entry, a child of a paned window a pane, a child of
        a notebook a tab with its controller's options (AttributeError when the
        controller has no such fields); under any other widget nothing. */
    method Register(n: nat, c: nat, d: Desc) returns (r: Outcome)
      requires Valid() && n < |nodes| && c < |nodes| && d.WidgetDesc?
      modifies tk`handles
      ensures Valid()
      ensures var pk := old(tk.handles[n].kind);
        && (r.Raised? <==> pk == Notebook && (d.controller.None? || d.controller.value.Foreign?))
        && (r.Raised? ==> r.error.AttributeError?)
        && tk.handles == old(tk.handles)[n := old(tk.handles[n]).(entries :=
             old(tk.handles[n].entries) + Registration(pk, d, c))]
    {
      var pk := tk.handles[n].kind;
      assert tk.handles[n].entries + [] == tk.handles[n].entries;
      r := Done;
      if pk == Menu && d.it.Some? {
        tk.Add(n, MenuEntry(d.it.value.itemType, d.it.value.data, Some(c)));
      } else if pk == PanedWindow {
        tk.Add(n, Pane(c));
      } else if pk == Notebook {
        if d.controller.None? || d.controller.value.Foreign? {
          r := Raised(AttributeError("__dataclass_fields__"));
          return;
        }
        tk.Add(n, Tab(c, d.controller.value));
      }
    }

    /** Append entry `e` (a menu item, a pane or a tab) to this node's
        widget. */
    method AddEntry(n: nat, e: Entry)
      requires Valid() && n < |nodes|
      modifies tk`handles
      ensures Valid()
      ensures tk.handles == old(tk.handles)[n :=
        old(tk.handles[n]).(entries := old(tk.handles[n].entries) + [e])]
    {
      tk.Add(n, e);
    }

    /** The last part of loading one widget descriptor: apply its controller
        to the new child `c`, if it has one. A geometry directive places `c`,
        a menu binder with a window gives that window `c` as menu bar, a tab
        adder (already used by `Register`) does nothing more. */
    method Arrange(c: nat, d: Desc) returns (r: Outcome)
      requires Valid() && c < |nodes| && d.WidgetDesc?
      requires d.controller.Some? && d.controller.value.BindMenu? && d.controller.value.binder.win.Some? ==>
        d.controller.value.binder.win.value < c
      modifies tk`handles
      ensures Valid() && |tk.handles| == old(|tk.handles|)
      ensures r == (if d.controller.Some? && d.controller.value.Foreign? then Raised(WidgetNotArranged) else Done)
      ensures forall h :: 0 <= h < |tk.handles| && h != c ==>
        tk.handles[h] == old(tk.handles[h]).(menu := tk.handles[h].menu)
      ensures forall h :: 0 <= h < |tk.handles| && h != c ==>
        tk.handles[h].menu == (if BindsMenu(d.controller, h) then Some(c) else old(tk.handles[h].menu))
      ensures tk.handles[c] == old(tk.handles[c]).(placement :=
        if Placed(d.controller).Some? then Placed(d.controller) else old(tk.handles[c].placement))
    {
      if d.controller.None? {
        return Done;
      }
      r := Apply(c, d.controller.value);
    }

    /** One widget descriptor of `load_sub`: `AddTree`, then apply the
        child's controller if it has one. Stops at the first error. */
    method LoadOne(n: nat, d: Desc) returns (r: Outcome, c: nat)
      requires Valid() && n < |nodes| && d.WidgetDesc? && RefOk(d, |tk.handles|)
      modifies this, tk
      decreases Size(d), 0, 0
      ensures Valid()
      ensures Extends(old(nodes), old(linguists), old(tk.handles), old(tk.texts), nodes, linguists, tk.handles, tk.texts, n)
      ensures r.Done? ==> nodes[n].children == old(nodes[n].children) + [c]
      ensures r.Done? ==> MadeTree(nodes, tk.handles, tk.texts, old(linguists[n]), c, d, n)
      ensures r.Done? ==> tk.handles[n].entries == old(tk.handles[n].entries) + Registration(old(tk.handles[n].kind), d, c)
      ensures r.Raised? ==> LoadError(r.error) && (r.error.KeyError? ==> old(linguists[n]) != null)
      ensures old(linguists[n]) == null && LoadableOne(old(tk.handles[n].kind), d) ==> r.Done?
    {
      ghost var ns0, ls0, hs0, ts0 := nodes, linguists, tk.handles, tk.texts;
      r, c := AddTree(n, d);
      if r.Raised? {
        return;
      }
      ghost var hs2 := tk.handles;
      r := Arrange(c, d);
      ExtendsRetouch(ns0, ls0, hs0, ts0, nodes, linguists, hs2, tk.handles, tk.texts, n);
      LoadedTree(nodes, hs2, tk.handles, tk.texts, ls0[n], c, d, n);
    }

    /** The first two parts of loading one widget descriptor: `AddChild`,
        then load the descriptor's own descriptors under the new child.
        Stops at the first error. */
    method AddTree(n: nat, d: Desc) returns (r: Outcome, c: nat)
      requires Valid() && n < |nodes| && d.WidgetDesc? && RefOk(d, |tk.handles|)
      modifies this, tk
      decreases SizeAll(d.sub), 2, 0
      ensures Valid()
      ensures Extends(old(nodes), old(linguists), old(tk.handles), old(tk.texts), nodes, linguists, tk.handles, tk.texts, n)
      ensures c == old(|nodes|) && (r.Done? ==> nodes[n].children == old(nodes[n].children) + [c])
      ensures r.Done? ==> Made(nodes, tk.handles, c, d.(controller := None), n)
      ensures r.Done? ==> ShowsLoaded(tk.texts, old(linguists[n]), c, d)
      ensures r.Done? ==> |nodes[c].children| == |Widgets(d.sub)|
      ensures r.Done? ==> MadeFrom(nodes, tk.handles, tk.texts, old(linguists[n]), c, 0, Widgets(d.sub), c)
      ensures r.Done? ==> tk.handles[c].entries == Entries(d.kind, d.sub, nodes[c].children)
      ensures r.Done? ==> tk.handles[n].entries == old(tk.handles[n].entries) + Registration(old(tk.handles[n].kind), d, c)
      ensures r.Raised? ==> LoadError(r.error) && (r.error.KeyError? ==> old(linguists[n]) != null)
      ensures old(linguists[n]) == null && LoadableOne(old(tk.handles[n].kind), d) ==> r.Done?
    {
      ghost var ns0, ls0, hs0, ts0 := nodes, linguists, tk.handles, tk.texts;
      r, c := AddChild(n, d);
      if r.Raised? {
        return;
      }
      ghost var ns1, ls1, hs1, ts1 := nodes, linguists, tk.handles, tk.texts;
      RefOkGrow(d, |hs0|, |tk.handles|);
      r := LoadSub(c, d.sub);
      ExtendsNested(ns0, ls0, hs0, ts0, ns1, ls1, hs1, ts1, nodes, linguists, tk.handles, tk.texts, n, c);
      assert Made(nodes, tk.handles, c, d.(controller := None), n);
      assert nodes[c].children[0..] == nodes[c].children;
    }

    /** `load_sub(items)`: walk the descriptors in order; a menu item adds an
        entry to this node's widget and creates no node; a widget descriptor
        is loaded by `LoadOne`. Stops at the first error. */
    method LoadSub(n: nat, items: seq<Desc>) returns (r: Outcome)
      requires Valid() && n < |nodes| && RefsIn(items, |tk.handles|)
      modifies this, tk
      decreases SizeAll(items), 1, 0
      ensures Valid()
      ensures Extends(old(nodes), old(linguists), old(tk.handles), old(tk.texts), nodes, linguists, tk.handles, tk.texts, n)
      ensures r.Done? ==> |nodes[n].children| == old(|nodes[n].children|) + |Widgets(items)|
      ensures r.Done? ==> MadeFrom(nodes, tk.handles, tk.texts, old(linguists[n]), n, old(|nodes[n].children|), Widgets(items), n)
      ensures r.Done? ==> tk.handles[n].entries == old(tk.handles[n].entries) +
                            Entries(old(tk.handles[n].kind), items, nodes[n].children[old(|nodes[n].children|)..])
      ensures r.Raised? ==> LoadError(r.error) && (r.error.KeyError? ==> old(linguists[n]) != null)
      ensures old(linguists[n]) == null && Loadable(old(tk.handles[n].kind), items) ==> r.Done?
    {
      ghost var ns0, ls0, hs0, ts0 := nodes, linguists, tk.handles, tk.texts;
      ghost var off := |nodes[n].children|;
      var i := 0;
      while i < |items|
        invariant i <= |items|
        invariant Valid() && Extends(ns0, ls0, hs0, ts0, nodes, linguists, tk.handles, tk.texts, n)
        invariant |nodes[n].children| == off + |Widgets(items[..i])|
        invariant MadeFrom(nodes, tk.handles, tk.texts, ls0[n], n, off, Widgets(items[..i]), n)
        invariant Registered(hs0, tk.handles, n, items[..i], nodes[n].children[off..])
      {
        if items[i].ItemDesc? {
          ItemStep(n, items, i, ns0, ls0, hs0, ts0, off);
        } else {
          r := WidgetStep(n, items, i, ns0, ls0, hs0, ts0, off);
          if r.Raised? {
            return;
          }
        }
        i := i + 1;
      }
      assert items[..i] == items;
      r := Done;
    }

    /** A menu item descriptor `items[i]` in the `load_sub` loop: an entry of
        the item's own type and options, without submenu, on this node's
        widget. `ns0, ls0, hs0, ts0` is
        the state before the loop and `off` the number of children `n` had
        then. */
    method ItemStep(n: nat, items: seq<Desc>, i: nat, ghost ns0: seq<Node>, ghost ls0: seq<KVPairLinguist?>,
                    ghost hs0: seq<Handle>, ghost ts0: seq<string>, ghost off: nat)
      requires Valid() && Extends(ns0, ls0, hs0, ts0, nodes, linguists, tk.handles, tk.texts, n)
      requires i < |items| && items[i].ItemDesc? && n < |hs0|
      requires |nodes[n].children| == off + |Widgets(items[..i])|
      requires MadeFrom(nodes, tk.handles, tk.texts, ls0[n], n, off, Widgets(items[..i]), n)
      requires Registered(hs0, tk.handles, n, items[..i], nodes[n].children[off..])
      modifies tk`handles
      ensures Valid() && Extends(ns0, ls0, hs0, ts0, nodes, linguists, tk.handles, tk.texts, n)
      ensures |nodes[n].children| == off + |Widgets(items[..i + 1])|
      ensures MadeFrom(nodes, tk.handles, tk.texts, ls0[n], n, off, Widgets(items[..i + 1]), n)
      ensures tk.handles[n].entries ==
        old(tk.handles[n].entries) + [MenuEntry(items[i].spec.itemType, items[i].spec.data, None)]
      ensures Registered(hs0, tk.handles, n, items[..i + 1], nodes[n].children[off..])
    {
      ghost var hs1 := tk.handles;
      WidgetsStep(items, i);
      var e := MenuEntry(items[i].spec.itemType, items[i].spec.data, None);
      AddEntry(n, e);
      ExtendsEntry(ns0, ls0, hs0, ts0, nodes, linguists, hs1, tk.handles, tk.texts, n, [e]);
      MadeEntry(nodes, hs1, tk.handles, tk.texts, ls0[n], n, off, Widgets(items[..i]), n, [e]);
      RegisteredItem(hs0, hs1, tk.handles, n, items, i, nodes[n].children[off..]);
    }

    /** A widget descriptor `items[i]` in the `load_sub` loop, loaded by
        `LoadOne`; the state before the loop as for `ItemStep`. */
    method WidgetStep(n: nat, items: seq<Desc>, i: nat, ghost ns0: seq<Node>, ghost ls0: seq<KVPairLinguist?>,
                      ghost hs0: seq<Handle>, ghost ts0: seq<string>, ghost off: nat)
      returns (r: Outcome)
      requires Valid() && Extends(ns0, ls0, hs0, ts0, nodes, linguists, tk.handles, tk.texts, n)
      requires i < |items| && items[i].WidgetDesc? && RefsIn(items, |hs0|) && n < |hs0|
      requires |nodes[n].children| == off + |Widgets(items[..i])|
      requires MadeFrom(nodes, tk.handles, tk.texts, ls0[n], n, off, Widgets(items[..i]), n)
      requires Registered(hs0, tk.handles, n, items[..i], nodes[n].children[off..])
      modifies this, tk
      decreases SizeAll(items), 0, 1
      ensures Valid() && Extends(ns0, ls0, hs0, ts0, nodes, linguists, tk.handles, tk.texts, n)
      ensures r.Done? ==> |nodes[n].children| == off + |Widgets(items[..i + 1])|
      ensures r.Done? ==> MadeFrom(nodes, tk.handles, tk.texts, ls0[n], n, off, Widgets(items[..i + 1]), n)
      ensures r.Done? ==> Registered(hs0, tk.handles, n, items[..i + 1], nodes[n].children[off..])
      ensures r.Raised? ==> LoadError(r.error) && (r.error.KeyError? ==> ls0[n] != null)
      ensures ls0[n] == null && Loadable(hs0[n].kind, items) ==> r.Done?
    {
      ghost var ns1, ls1, hs1, ts1 := nodes, linguists, tk.handles, tk.texts;
      ghost var ws := Widgets(items[..i]);
      WidgetsStep(items, i);
      RefsAt(items, |hs0|, i);
      RefOkGrow(items[i], |hs0|, |tk.handles|);
      SizeAllPrefix(items, i);
      ghost var cs1 := nodes[n].children;
      var c;
      r, c := LoadOne(n, items[i]);
      ExtendsThen(ns0, ls0, hs0, ts0, ns1, ls1, hs1, ts1, nodes, linguists, tk.handles, tk.texts, n);
      if r.Raised? {
        if ls0[n] == null && Loadable(hs0[n].kind, items) {
          LoadableAt(hs0[n].kind, items, i);
        }
        return;
      }
      MadeKept(ns1, ls1, hs1, ts1, nodes, linguists, tk.handles, tk.texts, ls0[n], n, off, ws, n);
      MadeAppend(nodes, tk.handles, tk.texts, ls0[n], n, off, ws, items[i], n, cs1, c);
      RegisteredWidget(hs0, hs1, tk.handles, n, items, i, cs1, off, c);
    }

    /** `self / items`: destroy the widget of every current child, empty the
        child list, load `items` and return this same node. */
    method Replace(n: nat, items: seq<Desc>) returns (r: Result<nat>)
      requires Valid() && n < |nodes| && RefsIn(items, |tk.handles|)
      modifies this, tk
      ensures Valid()
      ensures forall c :: c in old(nodes[n].children) ==> c < |tk.handles| && tk.handles[c].destroyed
      ensures n < |nodes| && forall k :: 0 <= k < |nodes[n].children| ==> old(|nodes|) <= nodes[n].children[k]
      ensures r.Ok? ==> r.value == n && |nodes[n].children| == |Widgets(items)|
      ensures r.Ok? ==> MadeFrom(nodes, tk.handles, tk.texts, old(linguists[n]), n, 0, Widgets(items), n)
      ensures r.Err? ==> LoadError(r.error)
      ensures old(linguists[n]) == null && Loadable(old(tk.handles[n].kind), items) ==> r.Ok?
      ensures Extends(old(nodes)[n := old(nodes[n]).(children := [])], old(linguists),
                      Destroyed(old(tk.handles), old(nodes[n].children)), old(tk.texts),
                      nodes, linguists, tk.handles, tk.texts, n)
      ensures r.Ok? ==> tk.handles[n].entries == old(tk.handles[n].entries) + Entries(old(tk.handles[n].kind), items, nodes[n].children)
    {
      DestroyChildren(n);
      ghost var ns1, hs1 := nodes, tk.handles;
      assert n !in ns1[n].children && hs1[n] == old(tk.handles[n]);
      nodes := nodes[n := nodes[n].(children := [])];
      var o := LoadSub(n, items);
      assert nodes[n].children[0..] == nodes[n].children;
      forall c | c in ns1[n].children
        ensures c < |tk.handles| && tk.handles[c].destroyed
      {
        assert n < c < |hs1| && hs1[c].destroyed;
      }
      if o.Raised? {
        return Err(o.error);
      }
      r := Ok(n);
    }

    /** The loop of `self / items` that destroys the widget of every child. */
    method DestroyChildren(n: nat)
      requires Valid() && n < |nodes|
      modifies tk`handles
      ensures Valid() && |tk.handles| == old(|tk.handles|)
      ensures forall h :: 0 <= h < |tk.handles| ==>
        tk.handles[h] == old(tk.handles[h]).(destroyed := old(tk.handles[h].destroyed) || h in nodes[n].children)
      ensures tk.handles == Destroyed(old(tk.handles), nodes[n].children)
    {
      var cs := nodes[n].children;
      var k := 0;
      while k < |cs|
        invariant k <= |cs| && Valid() && |tk.handles| == old(|tk.handles|)
        invariant forall h :: 0 <= h < |tk.handles| ==>
          tk.handles[h] == old(tk.handles[h]).(destroyed := old(tk.handles[h].destroyed) || h in cs[..k])
      {
        assert cs[..k + 1] == cs[..k] + [cs[k]];
        tk.Destroy(cs[k]);
        k := k + 1;
      }
      assert cs[..k] == cs;
    }
  }
}
