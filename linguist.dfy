/** Key/value localisation (`tkreform/linguist.py`).

    A message table maps message keys to texts and keeps insertion order; it
    is a sequence of (key, text) pairs whose keys are distinct. A linguist
    translates a text by finding its key in the base locale's table and
    looking that key up in the destination locale's table. */
module Linguist {
  import opened Common

  type Messages = seq<(string, string)>

  ghost predicate DistinctKeys(m: Messages) {
    forall i, j :: 0 <= i < j < |m| ==> m[i].0 != m[j].0
  }

  /** Entry `i` is the first one whose text is `v`. */
  ghost predicate IsFirstMatch(m: Messages, v: string, i: int) {
    0 <= i < |m| && m[i].1 == v && forall j :: 0 <= j < i ==> m[j].1 != v
  }

  /** `m @ v`: the first key (in insertion order) whose text is `v`;
      MessageNotFound when no key has that text. */
  function KeyOf(m: Messages, v: string): (r: Result<string>)
    ensures r.Ok? ==> exists i :: IsFirstMatch(m, v, i) && m[i].0 == r.value
    ensures r.Err? <==> forall i :: 0 <= i < |m| ==> m[i].1 != v
    ensures r.Err? ==> r.error == MessageNotFound(v)
  {
    if m == [] then Err(MessageNotFound(v))
    else if m[0].1 == v then Ok(m[0].0)
    else
      var r := KeyOf(m[1..], v);
      if r.Ok? then
        ghost var i :| IsFirstMatch(m[1..], v, i) && m[1..][i].0 == r.value;
        assert IsFirstMatch(m, v, i + 1);
        r
      else r
  }

  /** The loop of `Messages.__matmul__`, which scans the keys in order. */
  method FindKey(m: Messages, v: string) returns (r: Result<string>)
    ensures r == KeyOf(m, v)
  {
    var i := 0;
    while i < |m|
      invariant 0 <= i <= |m|
      invariant forall j :: 0 <= j < i ==> m[j].1 != v
      invariant KeyOf(m, v) == KeyOf(m[i..], v)
    {
      if m[i].1 == v {
        return Ok(m[i].0);
      }
      assert m[i..][1..] == m[i + 1..];
      i := i + 1;
    }
    r := Err(MessageNotFound(v));
  }

  /** `m[k]`: the text of key `k`; KeyError when the key is absent. */
  function Lookup(m: Messages, k: string): (r: Result<string>)
    ensures r.Ok? ==> (k, r.value) in m
    ensures r.Err? <==> forall i :: 0 <= i < |m| ==> m[i].0 != k
    ensures r.Err? ==> r.error == KeyError(k)
  {
    if m == [] then Err(KeyError(k))
    else if m[0].0 == k then Ok(m[0].1)
    else
      var r := Lookup(m[1..], k);
      assert forall i :: 1 <= i < |m| ==> m[i] == m[1..][i - 1];
      r
  }

  /** With distinct keys, looking up the key of entry `i` yields its text. */
  lemma {:induction false} LookupAt(m: Messages, i: nat)
    requires DistinctKeys(m) && i < |m|
    ensures Lookup(m, m[i].0) == Ok(m[i].1)
  {
    if i > 0 {
      assert m[0].0 != m[i].0;
      assert m[1..][i - 1] == m[i];
      LookupAt(m[1..], i - 1);
    }
  }

  /** Reverse lookup then forward lookup in the same table gives back the
      text: `m[m @ v] == v` whenever some key has text `v`. */
  lemma KeyOfThenLookup(m: Messages, v: string)
    requires DistinctKeys(m)
    requires exists i :: 0 <= i < |m| && m[i].1 == v
    ensures KeyOf(m, v).Ok? && Lookup(m, KeyOf(m, v).value) == Ok(v)
  {
    var j :| 0 <= j < |m| && m[j].1 == v;
    assert KeyOf(m, v).Ok?;
    var i :| IsFirstMatch(m, v, i) && m[i].0 == KeyOf(m, v).value;
    LookupAt(m, i);
  }

  class KVPairLinguist {
    const base: string
    const messages: map<string, Messages>
    const fallback: seq<string>
    const defaultLocale: string
    var dest: string

    /** Every table of the linguist is a dictionary (distinct keys). */
    ghost predicate Valid() {
      forall loc :: loc in messages ==> DistinctKeys(messages[loc])
    }

    /** The initial destination is the system default locale, given here as
        `defaultLocale`. */
    constructor (base: string, fallback: seq<string>, messages: map<string, Messages>, defaultLocale: string)
      requires forall loc :: loc in messages ==> DistinctKeys(messages[loc])
      ensures Valid()
      ensures this.base == base && this.messages == messages && this.fallback == fallback
      ensures this.defaultLocale == defaultLocale && dest == defaultLocale
    {
      this.base := base;
      this.messages := messages;
      this.fallback := fallback;
      this.defaultLocale := defaultLocale;
      dest := defaultLocale;
    }

    /** `lin[text]`: `messages[dest][messages[base] @ text]`. */
    function Translate(text: string): (r: Result<string>)
      reads this
      ensures base !in messages ==> r == Err(KeyError(base))
      ensures base in messages && KeyOf(messages[base], text).Err? ==> r == Err(MessageNotFound(text))
      ensures base in messages && KeyOf(messages[base], text).Ok? ==>
        r == (if dest in messages then Lookup(messages[dest], KeyOf(messages[base], text).value)
              else Err(KeyError(dest)))
    {
      if base !in messages then Err(KeyError(base))
      else
        var key := KeyOf(messages[base], text);
        if key.Err? then Err(key.error)
        else if dest !in messages then Err(KeyError(dest))
        else Lookup(messages[dest], key.value)
    }

    /** `lin.dest = d`. */
    method SetDest(d: string)
      modifies this
      ensures dest == d
    {
      dest := d;
    }

    /** `lin.current_messages`: the destination's table. */
    function CurrentMessages(): (r: Result<Messages>)
      reads this
      ensures r.Ok? <==> dest in messages
      ensures r.Ok? ==> r.value == messages[dest]
      ensures r.Err? ==> r.error == KeyError(dest)
    {
      if dest in messages then Ok(messages[dest]) else Err(KeyError(dest))
    }
  }

  /** When the destination is the base locale, every text of the base table
      translates to itself. */
  lemma TranslateIdentity(lin: KVPairLinguist, text: string)
    requires lin.Valid() && lin.dest == lin.base && lin.base in lin.messages
    requires exists i :: 0 <= i < |lin.messages[lin.base]| && lin.messages[lin.base][i].1 == text
    ensures lin.Translate(text) == Ok(text)
  {
    KeyOfThenLookup(lin.messages[lin.base], text);
  }

  /** A text absent from the base table raises MessageNotFound, whatever the
      destination is. */
  lemma TranslateAbsent(lin: KVPairLinguist, text: string)
    requires lin.base in lin.messages
    requires forall i :: 0 <= i < |lin.messages[lin.base]| ==> lin.messages[lin.base][i].1 != text
    ensures lin.Translate(text) == Err(MessageNotFound(text))
  {
  }

  /** A successful translation is the destination text stored under the
      first base-table key whose text is `text`. */
  lemma TranslateFound(lin: KVPairLinguist, text: string)
    requires lin.Translate(text).Ok?
    ensures lin.base in lin.messages && lin.dest in lin.messages
    ensures exists i :: (IsFirstMatch(lin.messages[lin.base], text, i)
      && (lin.messages[lin.base][i].0, lin.Translate(text).value) in lin.messages[lin.dest])
  {
    var m := lin.messages[lin.base];
    var i :| IsFirstMatch(m, text, i) && m[i].0 == KeyOf(m, text).value;
  }
}
