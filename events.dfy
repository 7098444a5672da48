/** Event-sequence builder (`tkreform/events.py`).

    An event is a set of (name, event, ord) triples kept in a canonical order:
    by `ord` descending, then by event word. The `event` string joins the
    event words (`<Control-s>`), the `literal` string joins the human-readable
    names (`Ctrl+s`). Combining two events takes the union of their triples. */
module Events {
  import opened Common

  const DETAIL := 1
  const TYPE := 2
  const MODIFIER := 3
  const NMODIFIER := 4

  const KeyLiteralSep := "+"

  datatype Triple = Triple(name: string, event: string, ord: int)

  /** Python's `<` on strings: lexicographic by code point, a proper prefix
      being smaller. */
  predicate StrLt(a: string, b: string) {
    if b == [] then false
    else if a == [] then true
    else if a[0] != b[0] then a[0] < b[0]
    else StrLt(a[1..], b[1..])
  }

  lemma {:induction false} StrLtIrreflexive(a: string)
    ensures !StrLt(a, a)
  {
    if a != [] {
      StrLtIrreflexive(a[1..]);
    }
  }

  lemma {:induction false} StrLtTransitive(a: string, b: string, c: string)
    requires StrLt(a, b) && StrLt(b, c)
    ensures StrLt(a, c)
  {
    if a != [] && a[0] == b[0] && b[0] == c[0] {
      StrLtTransitive(a[1..], b[1..], c[1..]);
    }
  }

  lemma {:induction false} StrLtTotal(a: string, b: string)
    ensures a == b || StrLt(a, b) || StrLt(b, a)
  {
    if a != [] && b != [] && a[0] == b[0] {
      StrLtTotal(a[1..], b[1..]);
      if a[1..] == b[1..] {
        assert a == [a[0]] + a[1..] && b == [b[0]] + b[1..];
      }
    }
  }

  lemma {:induction false} StrLtAsymmetric(a: string, b: string)
    ensures !(StrLt(a, b) && StrLt(b, a))
  {
    if StrLt(a, b) && StrLt(b, a) {
      StrLtTransitive(a, b, a);
      StrLtIrreflexive(a);
    }
  }

  /** The canonical order of triples: the sort key `(-ord, event)` of the
      source, then the name, which decides between triples whose key ties. */
  predicate TripleLt(x: Triple, y: Triple) {
    x.ord > y.ord
    || (x.ord == y.ord && (StrLt(x.event, y.event) || (x.event == y.event && StrLt(x.name, y.name))))
  }

  lemma TripleLtIrreflexive(x: Triple)
    ensures !TripleLt(x, x)
  {
    StrLtIrreflexive(x.event);
    StrLtIrreflexive(x.name);
  }

  lemma TripleLtTransitive(x: Triple, y: Triple, z: Triple)
    requires TripleLt(x, y) && TripleLt(y, z)
    ensures TripleLt(x, z)
  {
    if x.ord == y.ord == z.ord {
      if StrLt(x.event, y.event) && StrLt(y.event, z.event) {
        StrLtTransitive(x.event, y.event, z.event);
      } else if x.event == y.event == z.event {
        StrLtIrreflexive(x.event);
        StrLtTransitive(x.name, y.name, z.name);
      }
    }
  }

  lemma TripleLtTotal(x: Triple, y: Triple)
    ensures x == y || TripleLt(x, y) || TripleLt(y, x)
  {
    StrLtTotal(x.event, y.event);
    StrLtTotal(x.name, y.name);
  }

  lemma TripleLtAsymmetric(x: Triple, y: Triple)
    ensures !(TripleLt(x, y) && TripleLt(y, x))
  {
    if TripleLt(x, y) && TripleLt(y, x) {
      TripleLtTransitive(x, y, x);
      TripleLtIrreflexive(x);
    }
  }

  /** Strictly increasing in the canonical order, hence without repeats. */
  predicate Sorted(s: seq<Triple>) {
    forall i, j :: 0 <= i < j < |s| ==> TripleLt(s[i], s[j])
  }

  /** Put `x` into its place in `s`, dropping it if it is already there. */
  function Insert(x: Triple, s: seq<Triple>): (r: seq<Triple>)
    requires Sorted(s)
    ensures Sorted(r)
    ensures forall t :: t in r <==> t in s || t == x
  {
    if s == [] then [x]
    else if x == s[0] then s
    else if TripleLt(x, s[0]) then
      assert forall j :: 0 < j < |s| ==> TripleLt(x, s[j]) by {
        forall j | 0 < j < |s| {
          TripleLtTransitive(x, s[0], s[j]);
        }
      }
      [x] + s
    else
      TripleLtTotal(x, s[0]);
      var rest := Insert(x, s[1..]);
      assert forall t :: t in rest ==> TripleLt(s[0], t);
      [s[0]] + rest
  }

  /** `sorted(set(data), key=...)`: the distinct triples in canonical order. */
  function Sort(data: seq<Triple>): (r: seq<Triple>)
    ensures Sorted(r)
    ensures forall t :: t in r <==> t in data
    ensures |data| <= 1 ==> r == data
  {
    if data == [] then [] else Insert(data[0], Sort(data[1..]))
  }

  /** A sorted sequence is determined by its elements. */
  lemma {:induction false} SortedUnique(a: seq<Triple>, b: seq<Triple>)
    requires Sorted(a) && Sorted(b)
    requires forall t :: t in a <==> t in b
    ensures a == b
  {
    if a != [] {
      assert a[0] in a;
    }
    if b != [] {
      assert b[0] in b;
    }
    if a != [] && b != [] {
      if a[0] != b[0] {
        assert a[0] in b && b[0] in a;
        TripleLtAsymmetric(a[0], b[0]);
        assert false;
      }
      TripleLtIrreflexive(a[0]);
      assert a == [a[0]] + a[1..] && b == [b[0]] + b[1..];
      forall t
        ensures t in a[1..] <==> t in b[1..]
      {
        if t in a[1..] {
          var k :| 0 <= k < |a[1..]| && a[1..][k] == t;
          assert TripleLt(a[0], a[k + 1]);
          assert t in b;
          var m :| 0 <= m < |b| && b[m] == t;
          assert m > 0 && b[1..][m - 1] == t;
        }
        if t in b[1..] {
          var k :| 0 <= k < |b[1..]| && b[1..][k] == t;
          assert TripleLt(b[0], b[k + 1]);
          assert t in a;
          var m :| 0 <= m < |a| && a[m] == t;
          assert m > 0 && a[1..][m - 1] == t;
        }
      }
      SortedUnique(a[1..], b[1..]);
    }
  }

  /** An event: its triples, always in canonical order. */
  datatype Event = Event(ed: seq<Triple>) {
    predicate Valid() {
      Sorted(ed)
    }

    /** `literal`: the non-empty names joined with `+`. */
    function Literal(): (l: string)
      ensures l == "" <==> forall i :: 0 <= i < |ed| ==> ed[i].name == ""
    {
      NonEmptyNone(Names(ed));
      JoinEmpty(KeyLiteralSep, NonEmpty(Names(ed)));
      Join(KeyLiteralSep, NonEmpty(Names(ed)))
    }

    /** `event` (also `str(e)`): the non-empty event words joined with `-`,
        in angle brackets. */
    function EventString(): (s: string)
      ensures |s| >= 2 && s[0] == '<' && s[|s| - 1] == '>'
      ensures s[1..|s| - 1] == Join("-", NonEmpty(Words(ed)))
      ensures s == "<>" <==> forall i :: 0 <= i < |ed| ==> ed[i].event == ""
    {
      NonEmptyNone(Words(ed));
      JoinEmpty("-", NonEmpty(Words(ed)));
      "<" + Join("-", NonEmpty(Words(ed))) + ">"
    }
  }

  /** The names of the triples, in order. */
  function Names(s: seq<Triple>): (r: seq<string>)
    ensures |r| == |s| && forall i :: 0 <= i < |s| ==> r[i] == s[i].name
  {
    if s == [] then [] else [s[0].name] + Names(s[1..])
  }

  /** The event words of the triples, in order. */
  function Words(s: seq<Triple>): (r: seq<string>)
    ensures |r| == |s| && forall i :: 0 <= i < |s| ==> r[i] == s[i].event
  {
    if s == [] then [] else [s[0].event] + Words(s[1..])
  }

  /** Two constructions from the same triples render the same: `literal` and
      `event` depend only on the set of triples given. */
  lemma RenderCanonical(d1: seq<Triple>, d2: seq<Triple>)
    requires forall t :: t in d1 <==> t in d2
    ensures MakeEvent(d1).Literal() == MakeEvent(d2).Literal()
    ensures MakeEvent(d1).EventString() == MakeEvent(d2).EventString()
  {
    MakeEventCanonical(d1, d2);
  }

  /** The `event` string of an event is that of its first `k` triples (those
      of highest `ord`) followed, after a `-`, by that of the rest, whenever
      both have a non-empty word. */
  lemma EventStringSplit(e: Event, k: nat)
    requires e.Valid() && k <= |e.ed|
    requires NonEmpty(Words(e.ed[..k])) != [] && NonEmpty(Words(e.ed[k..])) != []
    ensures forall i, j :: 0 <= i < k <= j < |e.ed| ==> e.ed[i].ord >= e.ed[j].ord
    ensures e.EventString() ==
      "<" + (Join("-", NonEmpty(Words(e.ed[..k]))) + "-" + Join("-", NonEmpty(Words(e.ed[k..])))) + ">"
  {
    forall i, j | 0 <= i < k <= j < |e.ed|
      ensures e.ed[i].ord >= e.ed[j].ord
    {
      assert TripleLt(e.ed[i], e.ed[j]);
    }
    var hi, lo := e.ed[..k], e.ed[k..];
    assert e.ed == hi + lo;
    WordsAppend(hi, lo);
    JoinNonEmptyAppend("-", Words(hi), Words(lo));
  }

  /** The `literal` string of an event is that of its first `k` triples
      followed, after a `+`, by that of the rest, whenever both have a
      non-empty name. */
  lemma LiteralSplit(e: Event, k: nat)
    requires k <= |e.ed|
    requires NonEmpty(Names(e.ed[..k])) != [] && NonEmpty(Names(e.ed[k..])) != []
    ensures e.Literal() ==
      Join(KeyLiteralSep, NonEmpty(Names(e.ed[..k]))) + KeyLiteralSep + Join(KeyLiteralSep, NonEmpty(Names(e.ed[k..])))
  {
    var hi, lo := e.ed[..k], e.ed[k..];
    assert e.ed == hi + lo;
    NamesAppend(hi, lo);
    JoinNonEmptyAppend(KeyLiteralSep, Names(hi), Names(lo));
  }

  lemma NamesAppend(a: seq<Triple>, b: seq<Triple>)
    ensures Names(a + b) == Names(a) + Names(b)
  {
  }

  lemma WordsAppend(a: seq<Triple>, b: seq<Triple>)
    ensures Words(a + b) == Words(a) + Words(b)
  {
  }

  /** Joining the non-empty parts of two runs, each with a non-empty part,
      puts `sep` between the joins of each. */
  lemma JoinNonEmptyAppend(sep: string, a: seq<string>, b: seq<string>)
    requires NonEmpty(a) != [] && NonEmpty(b) != []
    ensures Join(sep, NonEmpty(a + b)) == Join(sep, NonEmpty(a)) + sep + Join(sep, NonEmpty(b))
  {
    NonEmptyAppend(a, b);
    JoinAppend(sep, NonEmpty(a), NonEmpty(b));
  }

  /** A modifier-like triple (`ord` above DETAIL) with a non-empty name and
      word, combined with a non-empty key string, renders as the modifier's
      word then the key in `event`, and as its name then the key in
      `literal`. */
  lemma ModifierThenKey(m: Triple, key: string)
    requires m.ord > DETAIL && m.name != "" && m.event != "" && key != ""
    ensures Add(MakeEvent([m]), StrArg(key)).EventString() == "<" + m.event + "-" + key + ">"
    ensures Add(MakeEvent([m]), StrArg(key)).Literal() == m.name + "+" + key
  {
    var d := Triple(key, key, DETAIL);
    var e := Add(MakeEvent([m]), StrArg(key));
    assert [m] + [d] == [m, d] && [m, d][1..] == [d];
    assert e.ed == Insert(m, [d]) == [m, d];
    assert NonEmpty(Names([m, d])) == [m.name, key];
    assert NonEmpty(Words([m, d])) == [m.event, key];
    assert [m.name, key][1..] == [key] && [m.event, key][1..] == [key];
  }

  /** `Event(*eventdata)`. */
  function MakeEvent(data: seq<Triple>): (e: Event)
    ensures e.Valid()
    ensures forall t :: t in e.ed <==> t in data
    ensures |data| <= 1 ==> e.ed == data
  {
    Event(Sort(data))
  }

  /** Building an event from a valid event's own triples gives it back. */
  lemma MakeEventOfValid(e: Event)
    requires e.Valid()
    ensures MakeEvent(e.ed) == e
  {
    SortedUnique(MakeEvent(e.ed).ed, e.ed);
  }

  /** Two constructions from the same triples give the same event: order and
      repetition of the arguments do not matter. */
  lemma MakeEventCanonical(d1: seq<Triple>, d2: seq<Triple>)
    requires forall t :: t in d1 <==> t in d2
    ensures MakeEvent(d1) == MakeEvent(d2)
  {
    SortedUnique(MakeEvent(d1).ed, MakeEvent(d2).ed);
  }

  /** The right operand of `+`, `-`, `&`, `|`: an event, or any other value,
      which is turned into text. */
  datatype Operand = EventArg(e: Event) | StrArg(s: string) | IntArg(i: int)

  /** A non-event operand `v` stands for the single triple `(str(v), str(v), DETAIL)`. */
  function AsEvent(o: Operand): (e: Event)
    ensures o.StrArg? ==> e.ed == [Triple(o.s, o.s, DETAIL)]
    ensures o.IntArg? ==> e.ed == [Triple(IntToString(o.i), IntToString(o.i), DETAIL)]
    ensures o.EventArg? ==> e == o.e
  {
    match o
    case EventArg(e) => e
    case StrArg(s) => MakeEvent([Triple(s, s, DETAIL)])
    case IntArg(i) => MakeEvent([Triple(IntToString(i), IntToString(i), DETAIL)])
  }

  /** `self + other`: the union of both operands' triples. */
  function Add(e: Event, o: Operand): (r: Event)
    ensures r.Valid()
    ensures forall t :: t in r.ed <==> t in e.ed || t in AsEvent(o).ed
  {
    MakeEvent(e.ed + AsEvent(o).ed)
  }

  /** `self - other`, the same combination as `+`. */
  function Sub(e: Event, o: Operand): (r: Event)
    ensures r.Valid()
    ensures forall t :: t in r.ed <==> t in e.ed || t in AsEvent(o).ed
  {
    Add(e, o)
  }

  /** `self & other`, the same combination as `+`. */
  function And(e: Event, o: Operand): (r: Event)
    ensures r.Valid()
    ensures forall t :: t in r.ed <==> t in e.ed || t in AsEvent(o).ed
  {
    Add(e, o)
  }

  /** `self | other`, the same combination as `+`. */
  function Or(e: Event, o: Operand): (r: Event)
    ensures r.Valid()
    ensures forall t :: t in r.ed <==> t in e.ed || t in AsEvent(o).ed
  {
    Add(e, o)
  }

  /** Combining events does not depend on the order of the operands. */
  lemma AddCommutes(a: Event, b: Event)
    ensures Add(a, EventArg(b)) == Add(b, EventArg(a))
  {
    SortedUnique(Add(a, EventArg(b)).ed, Add(b, EventArg(a)).ed);
  }

  /** Combining events is associative. */
  lemma AddAssociates(a: Event, b: Event, c: Event)
    ensures Add(Add(a, EventArg(b)), EventArg(c)) == Add(a, EventArg(Add(b, EventArg(c))))
  {
    SortedUnique(Add(Add(a, EventArg(b)), EventArg(c)).ed, Add(a, EventArg(Add(b, EventArg(c)))).ed);
  }

  /** Adding an event to itself changes nothing. */
  lemma AddIdempotent(e: Event)
    requires e.Valid()
    ensures Add(e, EventArg(e)) == e
  {
    SortedUnique(Add(e, EventArg(e)).ed, e.ed);
  }

  /** The table of opposite event types: press and release, enter and
      leave, focus in and out. */
  const NegativeEvent: map<string, string> := map[
    "Key" := "KeyRelease",
    "KeyRelease" := "Key",
    "KeyPress" := "KeyRelease",
    "Button" := "ButtonRelease",
    "ButtonRelease" := "Button",
    "ButtonPress" := "ButtonRelease",
    "Enter" := "Leave",
    "Leave" := "Enter",
    "FocusIn" := "FocusOut",
    "FocusOut" := "FocusIn"]

  /** The opposite of an event word; a word outside the table is kept. */
  function NegWord(w: string): string {
    if w in NegativeEvent then NegativeEvent[w] else w
  }

  /** Every word in the table except the two press aliases is the opposite of
      its opposite. */
  lemma NegWordInvolution(w: string)
    requires w != "KeyPress" && w != "ButtonPress"
    ensures NegWord(NegWord(w)) == w
  {
  }

  /** The two press aliases negate to the release word, whose opposite is the
      plain word, not the alias. */
  lemma NegWordPressAliases()
    ensures NegWord(NegWord("KeyPress")) == "Key"
    ensures NegWord(NegWord("ButtonPress")) == "Button"
  {
  }

  function NegTriple(t: Triple): Triple {
    t.(event := NegWord(t.event))
  }

  function NegAll(s: seq<Triple>): (r: seq<Triple>)
    ensures |r| == |s| && forall i :: 0 <= i < |s| ==> r[i] == NegTriple(s[i])
  {
    if s == [] then [] else [NegTriple(s[0])] + NegAll(s[1..])
  }

  /** `-self`: every triple with its event word replaced by the opposite one. */
  function Neg(e: Event): (r: Event)
    ensures r.Valid()
    ensures forall t :: t in r.ed <==> exists i :: 0 <= i < |e.ed| && t == NegTriple(e.ed[i])
  {
    var n := NegAll(e.ed);
    var r := MakeEvent(n);
    assert forall t :: t in n <==> exists i :: 0 <= i < |e.ed| && t == NegTriple(e.ed[i]) by {
      forall t | t in n
        ensures exists i :: 0 <= i < |e.ed| && t == NegTriple(e.ed[i])
      {
        var i :| 0 <= i < |n| && n[i] == t;
      }
    }
    r
  }

  /** Negating twice gives back the event, unless it mentions one of the
      press aliases `KeyPress` or `ButtonPress`. */
  lemma NegNeg(e: Event)
    requires e.Valid()
    requires forall i :: 0 <= i < |e.ed| ==> e.ed[i].event != "KeyPress" && e.ed[i].event != "ButtonPress"
    ensures Neg(Neg(e)) == e
  {
    var n := Neg(e);
    var nn := Neg(n);
    forall t
      ensures t in nn.ed <==> t in e.ed
    {
      if t in nn.ed {
        var j :| 0 <= j < |n.ed| && t == NegTriple(n.ed[j]);
        assert n.ed[j] in n.ed;
        var i :| 0 <= i < |e.ed| && n.ed[j] == NegTriple(e.ed[i]);
        NegWordInvolution(e.ed[i].event);
      }
      if t in e.ed {
        var i :| 0 <= i < |e.ed| && e.ed[i] == t;
        var u := NegTriple(t);
        assert u in n.ed;
        var j :| 0 <= j < |n.ed| && n.ed[j] == u;
        NegWordInvolution(t.event);
        assert t == NegTriple(n.ed[j]);
      }
    }
    SortedUnique(nn.ed, e.ed);
  }

  /** Negating an event with a press alias can lose it: `-(-e)` has the
      plain word instead. */
  lemma NegNegKeyPress()
    ensures Neg(Neg(MakeEvent([Triple("", "KeyPress", TYPE)]))).ed == [Triple("", "Key", TYPE)]
  {
  }

  // The predefined events.
  const KEY := MakeEvent([Triple("", "Key", TYPE)])
  const CTRL := MakeEvent([Triple("Ctrl", "Control", MODIFIER)])
  const ALT := MakeEvent([Triple("Alt", "Alt", MODIFIER)])
  const SHIFT := MakeEvent([Triple("Shift", "Shift", MODIFIER)])
  const CAPS := MakeEvent([Triple("CapsLock", "Lock", MODIFIER)])
  const X2 := MakeEvent([Triple("", "Double", NMODIFIER)])
  const X3 := MakeEvent([Triple("", "Triple", NMODIFIER)])
  const X4 := MakeEvent([Triple("", "Quadruple", NMODIFIER)])
  const LMB := MakeEvent([Triple("Left Mouse Button", "Button", TYPE), Triple("", "1", DETAIL)])
  const RMB := MakeEvent([Triple("Right Mouse Button", "Button", TYPE), Triple("", "3", DETAIL)])
  const CMB := MakeEvent([Triple("Middle Mouse Button", "Button", TYPE), Triple("", "2", DETAIL)])

  /** `FN(n)`: function key `n`. */
  function FN(n: int): (e: Event)
    ensures e.ed == [Triple("F" + IntToString(n), "F" + IntToString(n), TYPE)]
  {
    MakeEvent([Triple("F" + IntToString(n), "F" + IntToString(n), TYPE)])
  }

  /** The left mouse button is `<Button-1>`, spelled "Left Mouse Button". */
  lemma LmbStrings()
    ensures LMB.EventString() == "<Button-1>"
    ensures LMB.Literal() == "Left Mouse Button"
  {
    var a, b := Triple("Left Mouse Button", "Button", TYPE), Triple("", "1", DETAIL);
    assert [a, b][1..] == [b];
    assert LMB.ed == Insert(a, [b]) == [a, b];
    assert Names([a, b]) == ["Left Mouse Button", ""] by {
      assert [b][1..] == [];
      assert Names([b]) == [""];
    }
    assert NonEmpty(["Left Mouse Button", ""]) == ["Left Mouse Button"] by {
      assert ["Left Mouse Button", ""][1..] == [""];
      assert [""][1..] == [];
    }
    assert Words([a, b]) == ["Button", "1"] by {
      assert [b][1..] == [];
      assert Words([b]) == ["1"];
    }
    assert NonEmpty(["Button", "1"]) == ["Button", "1"] by {
      assert ["Button", "1"][1..] == ["1"];
      assert ["1"][1..] == [];
    }
    assert Join("-", ["Button", "1"]) == "Button-1" by {
      assert ["Button", "1"][1..] == ["1"];
    }
  }

  /** `CTRL + "s"` is `<Control-s>`, spelled "Ctrl+s": modifiers come before
      the detail. */
  lemma CtrlSStrings()
    ensures Add(CTRL, StrArg("s")).EventString() == "<Control-s>"
    ensures Add(CTRL, StrArg("s")).Literal() == "Ctrl+s"
  {
    var c, d := Triple("Ctrl", "Control", MODIFIER), Triple("s", "s", DETAIL);
    assert CTRL.ed == [c] && AsEvent(StrArg("s")).ed == [d];
    var e := Add(CTRL, StrArg("s"));
    assert [c] + [d] == [c, d] && [c, d][1..] == [d];
    assert e.ed == Insert(c, [d]) == [c, d];
    assert Names([c, d]) == ["Ctrl", "s"] by {
      assert [c, d][1..][1..] == [];
    }
    assert NonEmpty(["Ctrl", "s"]) == ["Ctrl", "s"] by {
      assert ["Ctrl", "s"][1..] == ["s"];
      assert ["s"][1..] == [];
    }
    assert Join("+", ["Ctrl", "s"]) == "Ctrl+s" by {
      assert ["Ctrl", "s"][1..] == ["s"];
    }
    assert Words([c, d]) == ["Control", "s"] by {
      assert [c, d][1..][1..] == [];
    }
    assert NonEmpty(["Control", "s"]) == ["Control", "s"] by {
      assert ["Control", "s"][1..] == ["s"];
      assert ["s"][1..] == [];
    }
    assert Join("-", ["Control", "s"]) == "Control-s" by {
      assert ["Control", "s"][1..] == ["s"];
    }
  }
}
