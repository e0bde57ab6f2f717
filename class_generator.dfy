/**
 * The `class` generator: it turns a list of module files into one ambient
 * declaration file. Each file's path becomes a chain of property names in a
 * namespace tree whose leaf is the module's exported type; the tree is
 * rendered as an interface, optionally mounted on another interface named
 * by `declareTo`, after one import line per file.
 *
 * The tree is a JavaScript plain object: its own keys are listed the way
 * `Object.keys` lists them, array-index keys first in numeric order and
 * all other keys in the order they were created.
 */
module ClassGenerator {
  import opened JsText
  import opened Utils

  // ---------------------------------------------------------------------
  // The namespace tree

  /** A property value: a type name (a string) or a nested object. */
  datatype Value = Leaf(text: string) | Branch(entries: seq<Entry>)

  /** An own property of an object, in creation order. */
  datatype Entry = Entry(key: string, value: Value)

  function Keys(es: seq<Entry>): (ks: seq<string>)
    ensures |ks| == |es| && forall i :: 0 <= i < |es| ==> ks[i] == es[i].key
  {
    seq(|es|, i requires 0 <= i < |es| => es[i].key)
  }

  predicate DistinctKeys(es: seq<Entry>)
  {
    forall i, j :: 0 <= i < j < |es| ==> es[i].key != es[j].key
  }

  /** Every object in the tree has distinct keys. */
  predicate WellFormed(v: Value)
  {
    match v
    case Leaf(_) => true
    case Branch(es) => DistinctKeys(es) && forall e :: e in es ==> WellFormed(e.value)
  }

  /** The position of key `k`, or -1. */
  function FindKey(es: seq<Entry>, k: string): (i: int)
    ensures -1 <= i < |es|
    ensures i >= 0 ==> es[i].key == k
    ensures forall j :: 0 <= j < |es| && (i < 0 || j < i) ==> es[j].key != k
  {
    if es == [] then -1
    else if es[0].key == k then 0
    else var i := FindKey(es[1..], k); if i < 0 then -1 else i + 1
  }

  /** FindKey gives the first position holding the key. */
  lemma FindKeyFirst(es: seq<Entry>, k: string, i: int)
    requires 0 <= i < |es| && es[i].key == k
    requires forall j :: 0 <= j < i ==> es[j].key != k
    ensures FindKey(es, k) == i
  {
  }

  lemma FindKeyAbsent(es: seq<Entry>, k: string)
    requires forall j :: 0 <= j < |es| ==> es[j].key != k
    ensures FindKey(es, k) == -1
  {
  }

  /** Two entry lists with the same keys at the same positions find every key at the same place. */
  lemma FindKeySameKeys(es: seq<Entry>, r: seq<Entry>, k: string)
    requires |r| >= |es|
    requires forall j :: 0 <= j < |es| ==> r[j].key == es[j].key
    requires forall j :: |es| <= j < |r| ==> r[j].key != k
    ensures FindKey(r, k) == FindKey(es, k)
  {
    var f := FindKey(es, k);
    if f >= 0 {
      FindKeyFirst(r, k, f);
    } else {
      FindKeyAbsent(r, k);
    }
  }

  /** `obj[k]` for an own property; `None` when there is none. */
  function Lookup(es: seq<Entry>, k: string): Option<Value>
  {
    var i := FindKey(es, k);
    if i < 0 then None else Some(es[i].value)
  }

  /**
   * `obj[k] = v`: an existing key keeps its position and takes the new
   * value; a new key is added last.
   */
  function SetKey(es: seq<Entry>, k: string, v: Value): (r: seq<Entry>)
    ensures Keys(r) == if k in Keys(es) then Keys(es) else Keys(es) + [k]
    ensures Lookup(r, k) == Some(v)
    ensures forall k' :: k' != k ==> Lookup(r, k') == Lookup(es, k')
    ensures DistinctKeys(es) ==> DistinctKeys(r)
  {
    var i := FindKey(es, k);
    if i >= 0 then
      var r := es[i := Entry(k, v)];
      FindKeyFirst(r, k, i);
      assert Keys(r) == Keys(es);
      assert forall k' :: k' != k ==> FindKey(r, k') == FindKey(es, k') by {
        forall k' | k' != k ensures FindKey(r, k') == FindKey(es, k') {
          FindKeySameKeys(es, r, k');
        }
      }
      r
    else
      var r := es + [Entry(k, v)];
      FindKeyFirst(r, k, |es|);
      assert k !in Keys(es);
      assert Keys(r) == Keys(es) + [k];
      assert forall k' :: k' != k ==> FindKey(r, k') == FindKey(es, k') by {
        forall k' | k' != k ensures FindKey(r, k') == FindKey(es, k') {
          FindKeySameKeys(es, r, k');
        }
      }
      r
  }

  /** The object the walk descends into: the existing one, or a fresh one when the slot is empty or falsy. */
  function ChildrenFor(existing: Option<Value>): Result<seq<Entry>>
  {
    match existing
    case None => Ok([])
    case Some(Branch(children)) => Ok(children)
    case Some(Leaf(text)) =>
      // A non-empty string is kept, and the next assignment into it throws
      // in strict mode; an empty string is falsy and replaced by `{}`.
      if text == "" then Ok([]) else Err(TypeError)
  }

  /** The walk descends through a non-empty string before reaching the last name. */
  predicate LeafOnPath(es: seq<Entry>, path: seq<string>)
    decreases |path|
  {
    |path| >= 2 &&
    match Lookup(es, path[0])
    case None => false
    case Some(Leaf(text)) => text != ""
    case Some(Branch(children)) => LeafOnPath(children, path[1..])
  }

  /**
   * The collector walk for one file: intermediate objects are created on
   * demand and reused, and the last name is set to the type name. It
   * throws exactly when it would have to descend through a type name.
   */
  function Insert(es: seq<Entry>, path: seq<string>, leaf: string): (r: Result<seq<Entry>>)
    requires |path| >= 1
    ensures r.Err? <==> LeafOnPath(es, path)
    ensures r.Ok? ==> Keys(r.value) == if path[0] in Keys(es) then Keys(es) else Keys(es) + [path[0]]
    ensures r.Ok? ==> forall k :: k != path[0] ==> Lookup(r.value, k) == Lookup(es, k)
    decreases |path|
  {
    var name := path[0];
    if |path| == 1 then Ok(SetKey(es, name, Leaf(leaf)))
    else
      var children :- ChildrenFor(Lookup(es, name));
      var sub :- Insert(children, path[1..], leaf);
      Ok(SetKey(es, name, Branch(sub)))
  }

  /** The value reached by following `path` from the root object. */
  function LookupPath(es: seq<Entry>, path: seq<string>): Option<Value>
    requires |path| >= 1
    decreases |path|
  {
    var found := Lookup(es, path[0]);
    if |path| == 1 || found.None? then found
    else match found.value
      case Leaf(_) => None
      case Branch(children) => LookupPath(children, path[1..])
  }

  /** After a successful walk the path leads to the new type name. */
  lemma {:induction false} InsertThenLookup(es: seq<Entry>, path: seq<string>, leaf: string)
    requires |path| >= 1 && Insert(es, path, leaf).Ok?
    ensures LookupPath(Insert(es, path, leaf).value, path) == Some(Leaf(leaf))
    decreases |path|
  {
    var r := Insert(es, path, leaf).value;
    if |path| > 1 {
      var children := ChildrenFor(Lookup(es, path[0])).value;
      var sub := Insert(children, path[1..], leaf).value;
      assert Lookup(r, path[0]) == Some(Branch(sub)) by {
        assert r == SetKey(es, path[0], Branch(sub));
      }
      InsertThenLookup(children, path[1..], leaf);
    } else {
      assert r == SetKey(es, path[0], Leaf(leaf));
    }
  }

  /** Following a path through an empty object finds nothing. */
  lemma LookupPathEmpty(path: seq<string>)
    requires |path| >= 1
    ensures LookupPath([], path) == None
  {
  }

  /**
   * The walk changes nothing off its own path: a path that agrees with it
   * on the first `i` names and then takes another name leads where it led
   * before.
   */
  lemma {:induction false} InsertKeepsOtherPaths(es: seq<Entry>, path: seq<string>, leaf: string, q: seq<string>, i: nat)
    requires |path| >= 1 && Insert(es, path, leaf).Ok?
    requires i < |path| && i < |q| && q[..i] == path[..i] && q[i] != path[i]
    ensures LookupPath(Insert(es, path, leaf).value, q) == LookupPath(es, q)
    decreases |path|, 1
  {
    if i == 0 {
      InsertOffFirstName(es, path, leaf, q);
    } else {
      InsertKeepsDeeperPaths(es, path, leaf, q, i);
    }
  }

  /** The case of InsertKeepsOtherPaths where the paths share their first name. */
  lemma {:induction false} InsertKeepsDeeperPaths(es: seq<Entry>, path: seq<string>, leaf: string, q: seq<string>, i: nat)
    requires |path| >= 1 && Insert(es, path, leaf).Ok?
    requires 0 < i < |path| && i < |q| && q[..i] == path[..i] && q[i] != path[i]
    ensures LookupPath(Insert(es, path, leaf).value, q) == LookupPath(es, q)
    decreases |path|, 0
  {
    PrefixTails(path, q, i);
    var children := InsertDescends(es, path, leaf, q);
    assert q[1..][i - 1] != path[1..][i - 1];
    InsertKeepsOtherPaths(children, path[1..], leaf, q[1..], i - 1);
  }

  /** A path whose first name differs from the walk's leads where it led before. */
  lemma InsertOffFirstName(es: seq<Entry>, path: seq<string>, leaf: string, q: seq<string>)
    requires |path| >= 1 && |q| >= 1 && q[0] != path[0] && Insert(es, path, leaf).Ok?
    ensures LookupPath(Insert(es, path, leaf).value, q) == LookupPath(es, q)
  {
    assert Lookup(Insert(es, path, leaf).value, q[0]) == Lookup(es, q[0]);
  }

  /** Two sequences agreeing on a non-empty prefix agree at the front, and their tails on the rest of it. */
  lemma PrefixTails(p: seq<string>, q: seq<string>, i: nat)
    requires 0 < i <= |p| && i <= |q| && q[..i] == p[..i]
    ensures q[0] == p[0] && q[1..][..i - 1] == p[1..][..i - 1]
  {
    assert q[0] == q[..i][0] && p[0] == p[..i][0];
    assert q[1..][..i - 1] == q[..i][1..];
    assert p[1..][..i - 1] == p[..i][1..];
  }

  /**
   * A path that takes the same first name as the walk is looked up, before
   * and after the walk, in the object the walk descends into.
   */
  lemma InsertDescends(es: seq<Entry>, path: seq<string>, leaf: string, q: seq<string>) returns (children: seq<Entry>)
    requires |path| >= 2 && |q| >= 2 && q[0] == path[0] && Insert(es, path, leaf).Ok?
    ensures ChildrenFor(Lookup(es, path[0])) == Ok(children)
    ensures Insert(children, path[1..], leaf).Ok?
    ensures LookupPath(Insert(es, path, leaf).value, q) == LookupPath(Insert(children, path[1..], leaf).value, q[1..])
    ensures LookupPath(es, q) == LookupPath(children, q[1..])
  {
    var existing := Lookup(es, path[0]);
    children := ChildrenFor(existing).value;
    var sub := Insert(children, path[1..], leaf).value;
    assert Lookup(Insert(es, path, leaf).value, q[0]) == Some(Branch(sub)) by {
      assert Insert(es, path, leaf).value == SetKey(es, path[0], Branch(sub));
    }
    if existing.None? || existing.value.Leaf? {
      LookupPathEmpty(q[1..]);
    }
  }

  /** A later file with the same path overwrites the earlier one's type name (last write wins). */
  lemma {:induction false} InsertOverwrites(es: seq<Entry>, path: seq<string>, a: string, b: string)
    requires |path| >= 1 && Insert(es, path, a).Ok?
    ensures Insert(Insert(es, path, a).value, path, b) == Insert(es, path, b)
    decreases |path|
  {
    var r := Insert(es, path, a).value;
    if |path| > 1 {
      var children := ChildrenFor(Lookup(es, path[0])).value;
      var sub := Insert(children, path[1..], a).value;
      assert Lookup(r, path[0]) == Some(Branch(sub));
      InsertOverwrites(children, path[1..], a, b);
      var sub' := Insert(children, path[1..], b);
      assert sub'.Ok?;
      assert SetKey(SetKey(es, path[0], Branch(sub)), path[0], Branch(sub'.value)) == SetKey(es, path[0], Branch(sub'.value))
        by { SetKeyTwice(es, path[0], Branch(sub), Branch(sub'.value)); }
    } else {
      SetKeyTwice(es, path[0], Leaf(a), Leaf(b));
    }
  }

  lemma SetKeyTwice(es: seq<Entry>, k: string, v: Value, w: Value)
    ensures SetKey(SetKey(es, k, v), k, w) == SetKey(es, k, w)
  {
    var i := FindKey(es, k);
    var r := SetKey(es, k, v);
    if i >= 0 {
      assert r == es[i := Entry(k, v)];
      assert FindKey(r, k) == i by {
        FindKeyFirst(r, k, i);
      }
      UpdateTwice(es, i, Entry(k, v), Entry(k, w));
    } else {
      assert r == es + [Entry(k, v)];
      assert FindKey(r, k) == |es| by {
        FindKeyFirst(r, k, |es|);
      }
      SnocUpdate(es, Entry(k, v), Entry(k, w));
    }
  }

  /** The walk keeps every object's keys distinct. */
  lemma {:induction false} InsertWellFormed(es: seq<Entry>, path: seq<string>, leaf: string)
    requires |path| >= 1 && WellFormed(Branch(es)) && Insert(es, path, leaf).Ok?
    ensures WellFormed(Branch(Insert(es, path, leaf).value))
    decreases |path|
  {
    var r := Insert(es, path, leaf).value;
    var child: Value;
    if |path| == 1 {
      child := Leaf(leaf);
    } else {
      var children := ChildrenFor(Lookup(es, path[0])).value;
      assert WellFormed(Branch(children)) by {
        var i := FindKey(es, path[0]);
        if i >= 0 {
          assert es[i] in es;
        }
      }
      InsertWellFormed(children, path[1..], leaf);
      child := Branch(Insert(children, path[1..], leaf).value);
    }
    assert r == SetKey(es, path[0], child);
    SetKeyWellFormed(es, path[0], child);
  }

  lemma SetKeyWellFormed(es: seq<Entry>, k: string, v: Value)
    requires WellFormed(Branch(es)) && WellFormed(v)
    ensures WellFormed(Branch(SetKey(es, k, v)))
  {
    var r := SetKey(es, k, v);
    forall e | e in r ensures WellFormed(e.value) {
      var j :| 0 <= j < |r| && r[j] == e;
      if e.key != k {
        assert Lookup(r, e.key) == Lookup(es, e.key);
        var i := FindKey(es, e.key);
        assert FindKey(r, e.key) == j;
        assert es[i] in es;
      } else {
        assert FindKey(r, k) == j;
      }
    }
  }

  // ---------------------------------------------------------------------
  // `Object.keys` order

  predicate IsIndexEntry(e: Entry) { IsArrayIndex(e.key) }

  /** The numeric value of an index key (0 for other keys). */
  function KeyNumber(e: Entry): nat
  {
    if IsArrayIndex(e.key) then IndexValue(e.key) else 0
  }

  /** The entries with array-index keys, in creation order. */
  function IndexEntries(es: seq<Entry>): (r: seq<Entry>)
    ensures forall e :: e in r ==> IsIndexEntry(e)
  {
    if es == [] then []
    else IndexEntries(es[..|es| - 1]) + (if IsIndexEntry(es[|es| - 1]) then [es[|es| - 1]] else [])
  }

  /** The entries with other keys, in creation order. */
  function NamedEntries(es: seq<Entry>): (r: seq<Entry>)
    ensures forall e :: e in r ==> !IsIndexEntry(e)
  {
    if es == [] then []
    else NamedEntries(es[..|es| - 1]) + (if IsIndexEntry(es[|es| - 1]) then [] else [es[|es| - 1]])
  }

  lemma {:induction false} PartitionEntries(es: seq<Entry>)
    ensures multiset(IndexEntries(es)) + multiset(NamedEntries(es)) == multiset(es)
  {
    if es != [] {
      var init := es[..|es| - 1];
      PartitionEntries(init);
      assert es == init + [es[|es| - 1]];
    }
  }

  lemma {:induction false} NamedEntriesAppend(a: seq<Entry>, b: seq<Entry>)
    ensures NamedEntries(a + b) == NamedEntries(a) + NamedEntries(b)
  {
    if b == [] {
      assert a + b == a;
    } else {
      var init := b[..|b| - 1];
      assert (a + b)[..|a + b| - 1] == a + init;
      NamedEntriesAppend(a, init);
    }
  }

  lemma {:induction false} NamedEntriesOfIndices(a: seq<Entry>)
    requires forall e :: e in a ==> IsIndexEntry(e)
    ensures NamedEntries(a) == []
  {
    if a != [] {
      assert a[|a| - 1] in a;
      NamedEntriesOfIndices(a[..|a| - 1]);
    }
  }

  predicate Ascending(s: seq<Entry>)
  {
    forall i, j :: 0 <= i < j < |s| ==> KeyNumber(s[i]) <= KeyNumber(s[j])
  }

  /** One step of insertion sort by key number. */
  function InsertAscending(e: Entry, s: seq<Entry>): seq<Entry>
  {
    if s == [] then [e]
    else if KeyNumber(e) <= KeyNumber(s[0]) then [e] + s
    else [s[0]] + InsertAscending(e, s[1..])
  }

  lemma {:induction false} InsertAscendingSorted(e: Entry, s: seq<Entry>)
    requires Ascending(s)
    ensures Ascending(InsertAscending(e, s))
    ensures multiset(InsertAscending(e, s)) == multiset(s) + multiset{e}
  {
    InsertAscendingPerm(e, s);
    if s == [] {
    } else if KeyNumber(e) <= KeyNumber(s[0]) {
      ConsAscending(e, s);
    } else {
      var rest := InsertAscending(e, s[1..]);
      InsertAscendingSorted(e, s[1..]);
      InsertAscendingHead(e, s, rest);
      ConsAscending(s[0], rest);
    }
  }

  /** Inserting adds exactly the one entry. */
  lemma {:induction false} InsertAscendingPerm(e: Entry, s: seq<Entry>)
    ensures multiset(InsertAscending(e, s)) == multiset(s) + multiset{e}
  {
    if s != [] {
      assert multiset(s) == multiset{s[0]} + multiset(s[1..]) by {
        assert s == [s[0]] + s[1..];
      }
      if KeyNumber(e) > KeyNumber(s[0]) {
        InsertAscendingPerm(e, s[1..]);
      }
    }
  }

  lemma ConsAscending(x: Entry, s: seq<Entry>)
    requires Ascending(s)
    requires forall i :: 0 <= i < |s| ==> KeyNumber(x) <= KeyNumber(s[i])
    ensures Ascending([x] + s)
  {
  }

  lemma InsertAscendingHead(e: Entry, s: seq<Entry>, rest: seq<Entry>)
    requires Ascending(s) && s != [] && KeyNumber(s[0]) < KeyNumber(e)
    requires multiset(rest) == multiset(s[1..]) + multiset{e}
    ensures forall i :: 0 <= i < |rest| ==> KeyNumber(s[0]) <= KeyNumber(rest[i])
  {
    assert s == [s[0]] + s[1..];
    forall i | 0 <= i < |rest| ensures KeyNumber(s[0]) <= KeyNumber(rest[i]) {
      var x := rest[i];
      assert x in multiset(rest);
      if x != e {
        assert x in multiset(s[1..]);
        var j :| 0 <= j < |s[1..]| && s[1..][j] == x;
        assert s[j + 1] == x;
      }
    }
  }

  /** Index-keyed entries sorted by their numeric value. */
  function SortAscending(s: seq<Entry>): (r: seq<Entry>)
    ensures Ascending(r) && multiset(r) == multiset(s)
  {
    if s == [] then []
    else
      assert s == s[..|s| - 1] + [s[|s| - 1]];
      var sorted := SortAscending(s[..|s| - 1]);
      InsertAscendingSorted(s[|s| - 1], sorted);
      InsertAscending(s[|s| - 1], sorted)
  }

  /**
   * `Object.keys(obj)` as entries: a reordering of the entries in which
   * the array-index keys come first, in ascending numeric order, and the
   * other keys keep their creation order.
   */
  function KeyOrder(es: seq<Entry>): seq<Entry>
  {
    SortAscending(IndexEntries(es)) + NamedEntries(es)
  }

  /**
   * `Object.keys` lists every own key once: a reordering of the entries in
   * which the array-index keys come first, in ascending numeric order, and
   * the other keys keep their creation order. Stated as a lemma rather than
   * on KeyOrder itself, so that the rendering proofs, which unfold KeyOrder
   * on concrete objects, do not carry it.
   */
  lemma KeyOrderSpec(es: seq<Entry>)
    ensures var r := KeyOrder(es);
      && multiset(r) == multiset(es)
      && (forall i, j :: 0 <= i < j < |r| && IsIndexEntry(r[j]) ==> IsIndexEntry(r[i]) && KeyNumber(r[i]) <= KeyNumber(r[j]))
      && NamedEntries(r) == NamedEntries(es)
  {
    var idx := SortAscending(IndexEntries(es));
    PartitionEntries(es);
    SortedIndicesAreIndices(es);
    IndicesFirst(idx, NamedEntries(es));
    NamedEntriesOfOrder(idx, es);
  }

  /** The keys listed are exactly the own keys. */
  lemma KeyOrderMembers(es: seq<Entry>)
    ensures forall e :: e in KeyOrder(es) <==> e in es
  {
    var r := KeyOrder(es);
    PartitionEntries(es);
    forall e ensures e in r <==> e in es {
      assert e in r <==> e in multiset(r);
    }
  }

  lemma SortedIndicesAreIndices(es: seq<Entry>)
    ensures forall e :: e in SortAscending(IndexEntries(es)) ==> IsIndexEntry(e)
  {
    forall e | e in SortAscending(IndexEntries(es)) ensures IsIndexEntry(e) {
      assert e in multiset(IndexEntries(es));
    }
  }

  lemma IndicesFirst(idx: seq<Entry>, named: seq<Entry>)
    requires Ascending(idx) && forall e :: e in idx ==> IsIndexEntry(e)
    requires forall e :: e in named ==> !IsIndexEntry(e)
    ensures var r := idx + named;
      forall i, j :: 0 <= i < j < |r| && IsIndexEntry(r[j]) ==> IsIndexEntry(r[i]) && KeyNumber(r[i]) <= KeyNumber(r[j])
  {
    var r := idx + named;
    forall i, j | 0 <= i < j < |r| && IsIndexEntry(r[j])
      ensures IsIndexEntry(r[i]) && KeyNumber(r[i]) <= KeyNumber(r[j])
    {
      assert r[i] in idx;
    }
  }

  lemma NamedEntriesOfOrder(idx: seq<Entry>, es: seq<Entry>)
    requires forall e :: e in idx ==> IsIndexEntry(e)
    ensures NamedEntries(idx + NamedEntries(es)) == NamedEntries(es)
  {
    NamedEntriesAppend(idx, NamedEntries(es));
    NamedEntriesOfIndices(idx);
    NamedEntriesIdempotent(es);
  }

  lemma {:induction false} NamedEntriesIdempotent(es: seq<Entry>)
    ensures NamedEntries(NamedEntries(es)) == NamedEntries(es)
  {
    if es != [] {
      var init := es[..|es| - 1];
      var last := es[|es| - 1];
      NamedEntriesIdempotent(init);
      var tail := if IsIndexEntry(last) then [] else [last];
      NamedEntriesAppend(NamedEntries(init), tail);
      if !IsIndexEntry(last) {
        assert NamedEntries(tail) == NamedEntries([]) + [last];
      }
    }
  }

  /** Objects without array-index keys list their keys in creation order. */
  lemma KeyOrderNoIndices(es: seq<Entry>)
    requires forall e :: e in es ==> !IsIndexEntry(e)
    ensures KeyOrder(es) == es
  {
    NoIndexEntries(es);
  }

  lemma {:induction false} NoIndexEntries(es: seq<Entry>)
    requires forall e :: e in es ==> !IsIndexEntry(e)
    ensures IndexEntries(es) == [] && NamedEntries(es) == es
  {
    if es != [] {
      var init, last := es[..|es| - 1], es[|es| - 1];
      assert !IsIndexEntry(last) by {
        assert last in es;
      }
      assert forall e :: e in init ==> !IsIndexEntry(e) by {
        forall e | e in init ensures e in es {
          var k :| 0 <= k < |init| && init[k] == e;
          assert es[k] == e;
        }
      }
      NoIndexEntries(init);
      SnocSplit(es);
    }
  }

  // ---------------------------------------------------------------------
  // Rendering (`composeInterface`)

  /** The leaf text, passed through the interface handle when there is one. */
  function Handled(preHandle: Option<seq<string> -> string>, val: string): string
  {
    if preHandle.Some? then preHandle.value([val]) else val
  }

  /** The line for a property whose value is a type name. */
  function LeafLine(indent: string, key: string, val: string, preHandle: Option<seq<string> -> string>): (r: string)
    ensures |r| >= 2 && r[|r| - 1] == '\n'
  {
    indent + key + ": " + Handled(preHandle, val) + ";\n"
  }

  /** The members of an object, one per own key in `Object.keys` order. */
  function RenderObject(v: Value, preHandle: Option<seq<string> -> string>, indent: string): string
    requires v.Branch?
    decreases v, 1, 0
  {
    var keys := KeyOrder(v.entries);
    KeyOrderMembers(v.entries);
    RenderEntries(v, keys, preHandle, indent)
  }

  /** The members for the first `|list|` keys of `v`. */
  function RenderEntries(v: Value, list: seq<Entry>, preHandle: Option<seq<string> -> string>, indent: string): string
    requires v.Branch? && forall e :: e in list ==> e in v.entries
    decreases v, 0, |list|
  {
    if list == [] then ""
    else RenderEntries(v, list[..|list| - 1], preHandle, indent) + RenderEntry(v, list[|list| - 1], preHandle, indent)
  }

  /**
   * One member: a type name gives one line; a nested object gives its own
   * members in braces, and nothing at all when it renders empty.
   */
  function RenderEntry(v: Value, e: Entry, preHandle: Option<seq<string> -> string>, indent: string): string
    requires v.Branch? && e in v.entries
    decreases v, 0, 0
  {
    match e.value
    case Leaf(val) => LeafLine(indent, e.key, val, preHandle)
    case Branch(_) =>
      var inner := RenderObject(e.value, preHandle, indent + "  ");
      if inner == "" then "" else indent + e.key + ": {\n" + inner + indent + "}\n"
  }

  /**
   * `Object.keys` of a string lists its character positions, and each
   * character is a string value: a string renders one line per character.
   */
  function RenderChars(s: string, preHandle: Option<seq<string> -> string>, indent: string): string
  {
    if s == [] then ""
    else RenderChars(s[..|s| - 1], preHandle, indent) + LeafLine(indent, NatToString(|s| - 1), [s[|s| - 1]], preHandle)
  }

  /** What the `Object.keys(obj).forEach` loop accumulates in `mid`. */
  function Body(v: Value, preHandle: Option<seq<string> -> string>, indent: string): string
  {
    match v
    case Leaf(s) => RenderChars(s, preHandle, indent)
    case Branch(_) => RenderObject(v, preHandle, indent)
  }

  /**
   * `composeInterface(obj, wrapInterface, preHandle, indent)` once the array
   * form has been folded into `v`; an absent wrapper is the empty string.
   */
  function Compose(v: Value, wrapInterface: string, preHandle: Option<seq<string> -> string>, indent: string): (r: string)
    ensures wrapInterface != "" ==>
      var open := indent + "interface " + wrapInterface + " {\n";
      |r| >= |open| + |indent| + 2 && r[..|open|] == open && r[|r| - |indent| - 2..] == indent + "}\n"
  {
    if wrapInterface == "" then Body(v, preHandle, indent)
    else indent + "interface " + wrapInterface + " {\n" + Body(v, preHandle, indent + "  ") + indent + "}\n"
  }

  /** `['abc', 'bbc', 'ccc']` as `{ abc: { bbc: 'ccc' } }`; one item stays a string. */
  function Chain(items: seq<string>): Value
    requires |items| >= 1
  {
    if |items| == 1 then Leaf(items[0]) else Branch([Entry(items[0], Chain(items[1..]))])
  }

  /** Some type name lies inside `v` (a type name counts itself). */
  predicate HasLeaf(v: Value)
  {
    match v
    case Leaf(_) => true
    case Branch(es) => exists e :: e in es && HasLeaf(e.value)
  }

  /** An object renders to nothing exactly when no type name lies inside it. */
  lemma {:induction false} RenderObjectEmpty(v: Value, preHandle: Option<seq<string> -> string>, indent: string)
    requires v.Branch?
    ensures RenderObject(v, preHandle, indent) == "" <==> !HasLeaf(v)
    decreases v, 1, 0
  {
    var keys := KeyOrder(v.entries);
    KeyOrderMembers(v.entries);
    RenderEntriesEmpty(v, keys, preHandle, indent);
  }

  lemma {:induction false} RenderEntriesEmpty(v: Value, list: seq<Entry>, preHandle: Option<seq<string> -> string>, indent: string)
    requires v.Branch? && forall e :: e in list ==> e in v.entries
    ensures RenderEntries(v, list, preHandle, indent) == "" <==> forall e :: e in list ==> !HasLeaf(e.value)
    decreases v, 0, |list|
  {
    if list != [] {
      var init, last := list[..|list| - 1], list[|list| - 1];
      assert list == init + [last];
      RenderEntriesEmpty(v, init, preHandle, indent);
      if last.value.Branch? {
        assert last in v.entries;
        RenderObjectEmpty(last.value, preHandle, indent + "  ");
      }
    }
  }

  /** The lines of a chain of single-key objects ending in a type name. */
  function ChainLines(keys: seq<string>, leaf: string, preHandle: Option<seq<string> -> string>, indent: string): (r: string)
    requires |keys| >= 1
    ensures r != ""
    decreases |keys|
  {
    if |keys| == 1 then LeafLine(indent, keys[0], leaf, preHandle)
    else indent + keys[0] + ": {\n" + ChainLines(keys[1..], leaf, preHandle, indent + "  ") + indent + "}\n"
  }

  /** The folded array renders as one opening line per key, the type line, and the closing lines. */
  lemma {:induction false} RenderChain(keys: seq<string>, leaf: string, preHandle: Option<seq<string> -> string>, indent: string)
    requires |keys| >= 1
    ensures RenderObject(Chain(keys + [leaf]), preHandle, indent) == ChainLines(keys, leaf, preHandle, indent)
    decreases |keys|
  {
    var items := keys + [leaf];
    assert items[1..] == keys[1..] + [leaf];
    var v := Chain(items);
    var e := Entry(keys[0], Chain(items[1..]));
    assert v == Branch([e]);
    assert RenderObject(v, preHandle, indent) == RenderEntry(v, e, preHandle, indent) by {
      RenderSingle(v, e, preHandle, indent);
    }
    if |keys| > 1 {
      RenderChain(keys[1..], leaf, preHandle, indent + "  ");
    }
  }

  lemma KeyOrderNoIndicesSingle(e: Entry)
    ensures KeyOrder([e]) == [e]
  {
    var es := [e];
    assert es[..0] == [];
    if IsIndexEntry(e) {
      assert IndexEntries(es) == [e];
      assert NamedEntries(es) == [];
    } else {
      assert IndexEntries(es) == [];
      assert NamedEntries(es) == [e];
    }
  }

  /** A one-member object renders as that member. */
  lemma RenderSingle(v: Value, e: Entry, preHandle: Option<seq<string> -> string>, indent: string)
    requires v == Branch([e])
    ensures RenderObject(v, preHandle, indent) == RenderEntry(v, e, preHandle, indent)
  {
    KeyOrderNoIndicesSingle(e);
    assert [e][..0] == [];
    assert RenderEntries(v, [e], preHandle, indent) == RenderEntries(v, [], preHandle, indent) + RenderEntry(v, e, preHandle, indent);
  }

  /** A two-member object without array-index keys renders its members in creation order. */
  lemma RenderPair(v: Value, e1: Entry, e2: Entry, preHandle: Option<seq<string> -> string>, indent: string)
    requires v == Branch([e1, e2]) && !IsIndexEntry(e1) && !IsIndexEntry(e2)
    ensures RenderObject(v, preHandle, indent) == RenderEntry(v, e1, preHandle, indent) + RenderEntry(v, e2, preHandle, indent)
  {
    assert forall e :: e in v.entries ==> e == e1 || e == e2;
    RenderObjectNamed(v, preHandle, indent);
    RenderEntriesPair(v, preHandle, indent);
  }

  /** Without array-index keys, members render in creation order. */
  lemma RenderObjectNamed(v: Value, preHandle: Option<seq<string> -> string>, indent: string)
    requires v.Branch? && forall e :: e in v.entries ==> !IsIndexEntry(e)
    ensures RenderObject(v, preHandle, indent) == RenderEntries(v, v.entries, preHandle, indent)
  {
    KeyOrderNoIndices(v.entries);
  }

  lemma RenderEntriesPair(v: Value, preHandle: Option<seq<string> -> string>, indent: string)
    requires v.Branch? && |v.entries| == 2
    ensures RenderEntries(v, v.entries, preHandle, indent)
      == RenderEntry(v, v.entries[0], preHandle, indent) + RenderEntry(v, v.entries[1], preHandle, indent)
  {
    var es := v.entries;
    assert RenderEntries(v, es[..1], preHandle, indent) == RenderEntry(v, es[0], preHandle, indent) by {
      assert es[..0] == [];
      RenderEntriesSnoc(v, es, 0, preHandle, indent);
    }
    assert RenderEntries(v, es, preHandle, indent)
      == RenderEntries(v, es[..1], preHandle, indent) + RenderEntry(v, es[1], preHandle, indent) by {
      assert es[..2] == es;
      RenderEntriesSnoc(v, es, 1, preHandle, indent);
    }
  }

  /** A nested object that renders to something is shown in braces under its key. */
  lemma RenderNested(v: Value, e: Entry, preHandle: Option<seq<string> -> string>, indent: string)
    requires v.Branch? && e in v.entries && e.value.Branch?
    requires RenderObject(e.value, preHandle, indent + "  ") != ""
    ensures RenderEntry(v, e, preHandle, indent)
      == indent + e.key + ": {\n" + RenderObject(e.value, preHandle, indent + "  ") + indent + "}\n"
  {
  }

  /** The tree `{ a: { b: x }, c: y }` of the rendering example below. */
  function ExampleTree(x: string, y: string): Value
  {
    Branch([Entry("a", Branch([Entry("b", Leaf(x))])), Entry("c", Leaf(y))])
  }

  lemma ExampleMembers(x: string, y: string)
    ensures RenderObject(ExampleTree(x, y), None, "  ") == "  a: {\n" + "    b: " + x + ";\n" + "  }\n" + "  c: " + y + ";\n"
  {
    var v := ExampleTree(x, y);
    var a, c := v.entries[0], v.entries[1];
    var lb, lc := LeafLine("    ", "b", x, None), LeafLine("  ", "c", y, None);
    var open, close := "  " + "a" + ": {\n", "  " + "}\n";
    ExampleText(x, y, open, close, lb, lc);
    assert RenderEntry(v, a, None, "  ") == open + lb + close by {
      ExampleNestedEntry(x, y);
    }
    assert !IsArrayIndex("a") && !IsArrayIndex("c");
    RenderPair(v, a, c, None, "  ");
  }

  /** The nested member `a` of the example shows its single member `b` in braces. */
  lemma ExampleNestedEntry(x: string, y: string)
    ensures RenderEntry(ExampleTree(x, y), ExampleTree(x, y).entries[0], None, "  ")
      == "  " + "a" + ": {\n" + LeafLine("    ", "b", x, None) + "  " + "}\n"
  {
    var v := ExampleTree(x, y);
    var a := v.entries[0];
    var b := a.value.entries[0];
    assert RenderObject(a.value, None, "  " + "  ") == LeafLine("    ", "b", x, None) by {
      assert "  " + "  " == "    ";
      RenderSingle(a.value, b, None, "    ");
    }
    RenderNested(v, a, None, "  ");
  }

  /** The text of the example, line by line. */
  lemma ExampleText(x: string, y: string, open: string, close: string, lb: string, lc: string)
    requires open == "  " + "a" + ": {\n" && close == "  " + "}\n"
    requires lb == "    " + "b" + ": " + x + ";\n" && lc == "  " + "c" + ": " + y + ";\n"
    ensures open + lb + close + lc == "  a: {\n" + "    b: " + x + ";\n" + "  }\n" + "  c: " + y + ";\n"
  {
    assert open == "  a: {\n" && close == "  }\n";
    assert "    " + "b" + ": " == "    b: " && "  " + "c" + ": " == "  c: ";
  }

  /** A wrapper with a nested object and a type name (the layout the generator documents). */
  lemma RenderExample(x: string, y: string)
    ensures Compose(ExampleTree(x, y), "T", None, "")
      == "interface T {\n" + "  a: {\n" + "    b: " + x + ";\n" + "  }\n" + "  c: " + y + ";\n" + "}\n"
  {
    var P, b1, b2, b3, b4, b5, b6 := "interface T {\n", "  a: {\n", "    b: ", ";\n", "  }\n", "  c: ", ";\n";
    var q1 := b1 + b2;
    var q2 := q1 + x;
    var q3 := q2 + b3;
    var q4 := q3 + b4;
    var q5 := q4 + b5;
    var q6 := q5 + y;
    var body := q6 + b6;
    assert "" + "  " == "  " && "" + "interface " + "T" + " {\n" == P;
    ExampleMembers(x, y);
    assert Compose(ExampleTree(x, y), "T", None, "") == P + body + "}\n";
    AppendAssoc(P, q6, b6);
    AppendAssoc(P, q5, y);
    AppendAssoc(P, q4, b5);
    AppendAssoc(P, q3, b4);
    AppendAssoc(P, q2, b3);
    AppendAssoc(P, q1, x);
    AppendAssoc(P, b1, b2);
  }

  // ---------------------------------------------------------------------
  // `composeInterface` as the source runs it

  /** A JavaScript array of strings; `composeInterface` empties it with `pop`. */
  class StringArray {
    var items: seq<string>

    constructor (items: seq<string>)
      ensures this.items == items
    {
      this.items := items;
    }

    /** `arr.pop()` on a non-empty array. */
    method Pop() returns (last: string)
      requires items != []
      modifies this
      ensures old(items) == items + [last]
    {
      last := items[|items| - 1];
      items := items[..|items| - 1];
    }
  }

  /** The argument of `composeInterface`: an array of names or an object. */
  datatype Composable = ArrayOf(arr: StringArray) | ObjectOf(value: Value)

  /** The array case: pop the last item, then wrap it in one object per remaining item. */
  method FoldChain(arr: StringArray) returns (v: Value)
    requires arr.items != []
    modifies arr
    ensures arr.items == [] && v == Chain(old(arr.items))
  {
    ghost var all := arr.items;
    var last := arr.Pop();
    v := Leaf(last);
    while arr.items != []
      invariant |arr.items| < |all| && arr.items == all[..|arr.items|]
      invariant v == Chain(all[|arr.items|..])
      decreases |arr.items|
    {
      var key := arr.Pop();
      var n := |arr.items|;
      assert all[..n + 1] == arr.items + [key];
      assert all[n] == key;
      assert all[n..][1..] == all[n + 1..];
      v := Branch([Entry(key, v)]);
    }
  }

  /**
   * `composeInterface(obj, wrapInterface, preHandle, indent)`: the optional
   * wrapper, the fold of an array argument (which empties the array), and
   * the members.
   */
  method ComposeInterface(obj: Composable, wrapInterface: string, preHandle: Option<seq<string> -> string>, indent: string)
    returns (s: string)
    requires obj.ArrayOf? ==> obj.arr.items != []
    modifies if obj.ArrayOf? then {obj.arr} else {}
    ensures obj.ArrayOf? ==> obj.arr.items == [] && s == Compose(Chain(old(obj.arr.items)), wrapInterface, preHandle, indent)
    ensures obj.ObjectOf? ==> s == Compose(obj.value, wrapInterface, preHandle, indent)
  {
    var prev, after := "", "";
    var ind := indent;
    if wrapInterface != "" {
      prev := ind + "interface " + wrapInterface + " {\n";
      after := ind + "}\n";
      ind := ind + "  ";
    }
    var v: Value;
    if obj.ArrayOf? {
      v := FoldChain(obj.arr);
    } else {
      v := obj.value;
    }
    var mid := ComposeMembers(v, preHandle, ind);
    s := prev + mid + after;
  }

  /**
   * The `Object.keys(obj).forEach` loop; a nested object is composed by the
   * recursive call without a wrapper, two spaces further in.
   */
  method ComposeMembers(v: Value, preHandle: Option<seq<string> -> string>, indent: string) returns (mid: string)
    ensures mid == Body(v, preHandle, indent)
    decreases v, 2
  {
    match v
    case Leaf(s) =>
      mid := ComposeChars(s, preHandle, indent);
    case Branch(_) =>
      mid := ComposeEntries(v, preHandle, indent);
  }

  /** The loop over the character positions of a string. */
  method ComposeChars(s: string, preHandle: Option<seq<string> -> string>, indent: string) returns (mid: string)
    ensures mid == RenderChars(s, preHandle, indent)
  {
    mid := "";
    for i := 0 to |s|
      invariant mid == RenderChars(s[..i], preHandle, indent)
    {
      assert s[..i + 1][..i] == s[..i];
      mid := mid + LeafLine(indent, NatToString(i), [s[i]], preHandle);
    }
    assert s[..|s|] == s;
  }

  /** The loop over the own keys of an object. */
  method ComposeEntries(v: Value, preHandle: Option<seq<string> -> string>, indent: string) returns (mid: string)
    requires v.Branch?
    ensures mid == RenderObject(v, preHandle, indent)
    decreases v, 1
  {
    var keys := KeyOrder(v.entries);
    KeyOrderMembers(v.entries);
    mid := "";
    for k := 0 to |keys|
      invariant mid == RenderEntries(v, keys[..k], preHandle, indent)
    {
      var member := ComposeMember(v, keys[k], preHandle, indent);
      RenderEntriesSnoc(v, keys, k, preHandle, indent);
      mid := mid + member;
    }
    assert keys[..|keys|] == keys;
  }

  /** The `forEach` callback for one key. */
  method ComposeMember(v: Value, e: Entry, preHandle: Option<seq<string> -> string>, indent: string) returns (member: string)
    requires v.Branch? && e in v.entries
    ensures member == RenderEntry(v, e, preHandle, indent)
    decreases v, 0
  {
    member := "";
    match e.value
    case Leaf(val) =>
      member := indent + e.key + ": " + Handled(preHandle, val) + ";\n";
    case Branch(_) =>
      var newVal := ComposeMembers(e.value, preHandle, indent + "  ");
      if newVal != "" {
        member := indent + e.key + ": {\n" + newVal + indent + "}\n";
      }
  }

  lemma RenderEntriesSnoc(v: Value, keys: seq<Entry>, k: nat, preHandle: Option<seq<string> -> string>, indent: string)
    requires v.Branch? && k < |keys| && forall e :: e in keys ==> e in v.entries
    ensures RenderEntries(v, keys[..k + 1], preHandle, indent)
      == RenderEntries(v, keys[..k], preHandle, indent) + RenderEntry(v, keys[k], preHandle, indent)
  {
    assert keys[..k + 1][..k] == keys[..k];
  }

  // ---------------------------------------------------------------------
  // The generator

  /** The options the generator reads; absent or empty options are `None`. */
  datatype GeneratorConfig = GeneratorConfig(
    fileList: seq<string>,
    dtsDir: string,
    dir: string,
    caseStyle: Option<CaseStyle>,
    interfaceName: Option<string>,
    declareTo: Option<string>,
    framework: Option<string>,
    interfaceHandle: InterfaceHandle)

  /** The options shared by all generators. */
  datatype BaseConfig = BaseConfig(caseStyle: Option<CaseStyle>, framework: Option<string>)

  /** The file to write and, unless the file list is empty, its content. */
  datatype GeneratorOutput = GeneratorOutput(dist: string, content: Option<string>)

  /** A value the `||` operator keeps: a present, non-empty string. */
  predicate Truthy(o: Option<string>) { o.Some? && o.value != "" }

  /** `String(x)` for an optional string. */
  function JsString(o: Option<string>): string { if o.Some? then o.value else "undefined" }

  /** The generator's own case style, else the base config's; camelProp treats a missing one as camel. */
  function EffectiveCaseStyle(config: GeneratorConfig, base: BaseConfig): CaseStyle
  {
    if config.caseStyle.Some? then config.caseStyle.value
    else if base.caseStyle.Some? then base.caseStyle.value
    else Camel
  }

  /** The generator's own framework name when truthy, else the base config's as string interpolation renders it. */
  function FrameworkName(config: GeneratorConfig, base: BaseConfig): string
  {
    if Truthy(config.framework) then config.framework.value else JsString(base.framework)
  }

  /** The configured interface name when truthy, else `TC` followed by the counter. */
  function InterfaceNameFor(config: GeneratorConfig, uniqId: nat): string
  {
    if Truthy(config.interfaceName) then config.interfaceName.value else "TC" + NatToString(uniqId)
  }

  /** Every path segment passed through camelProp, in order; the first failure aborts. */
  function CasedPath(props: seq<string>, caseStyle: CaseStyle): (r: Result<seq<string>>)
    ensures r.Ok? <==> forall i :: 0 <= i < |props| ==> CamelProp(props[i], caseStyle).Ok?
    ensures r.Ok? ==> |r.value| == |props| && forall i :: 0 <= i < |props| ==> CamelProp(props[i], caseStyle) == Ok(r.value[i])
  {
    if props == [] then Ok([])
    else
      var first :- CamelProp(props[0], caseStyle);
      var rest :- CasedPath(props[1..], caseStyle);
      assert forall i :: 1 <= i < |props| ==> props[i] == props[1..][i - 1];
      Ok([first] + rest)
  }

  /** What the loop over the file list has built so far. */
  datatype Collected = Collected(importStr: string, interfaceMap: seq<Entry>)

  /** The import statement for one file. */
  function ImportLine(f: string, moduleName: string, config: GeneratorConfig, path: PathLib): string
  {
    GetImportStr(path, config.dtsDir, path.join(config.dir, f), moduleName, false)
  }

  /** One iteration of the loop: an import line, then the collector walk. */
  function CollectFile(c: Collected, f: string, config: GeneratorConfig, base: BaseConfig, path: PathLib): (r: Result<Collected>)
    ensures r.Err? <==> TypePath(f, config, base).Err? || LeafOnPath(c.interfaceMap, TypePath(f, config, base).value)
    ensures r.Ok? ==> LookupPath(r.value.interfaceMap, TypePath(f, config, base).value)
                      == Some(Leaf("Export" + GetModuleObjByPath(f).value.moduleName))
  {
    var obj :- GetModuleObjByPath(f);
    var moduleName := "Export" + obj.moduleName;
    var names :- TypePath(f, config, base);
    var tree :- Insert(c.interfaceMap, names, moduleName);
    InsertThenLookup(c.interfaceMap, names, moduleName);
    Ok(Collected(c.importStr + ImportLine(f, moduleName, config, path) + "\n", tree))
  }

  /** The loop over the whole file list. */
  function Collect(files: seq<string>, config: GeneratorConfig, base: BaseConfig, path: PathLib): (r: Result<Collected>)
    ensures r.Ok? ==> AllTypePathsOk(files, config, base)
  {
    if files == [] then Ok(Collected("", []))
    else
      var c :- Collect(files[..|files| - 1], config, base, path);
      AllTypePathsOkSnoc(files, config, base);
      CollectFile(c, files[|files| - 1], config, base, path)
  }

  /** Every file's path names can be derived and cased. */
  predicate AllTypePathsOk(files: seq<string>, config: GeneratorConfig, base: BaseConfig)
  {
    forall i :: 0 <= i < |files| ==> TypePath(files[i], config, base).Ok?
  }

  lemma AllTypePathsOkSnoc(files: seq<string>, config: GeneratorConfig, base: BaseConfig)
    requires files != []
    ensures AllTypePathsOk(files[..|files| - 1], config, base) && TypePath(files[|files| - 1], config, base).Ok?
        ==> AllTypePathsOk(files, config, base)
  {
    var init := files[..|files| - 1];
    if AllTypePathsOk(init, config, base) && TypePath(files[|files| - 1], config, base).Ok? {
      forall i | 0 <= i < |files| ensures TypePath(files[i], config, base).Ok? {
        if i < |init| {
          assert files[i] == init[i];
        }
      }
    }
  }

  /** The interface that `declareTo` mounts the generated interface on, or nothing. */
  function DeclareBlock(config: GeneratorConfig, interfaceName: string): string
  {
    if Truthy(config.declareTo) then
      var parts := Split(config.declareTo.value, '.');
      Compose(Chain(parts[1..] + [interfaceName]), parts[0], None, "  ")
    else ""
  }

  /** The imports, then the framework's module augmented with the declare block and the interface. */
  function ModuleText(importStr: string, frameworkName: string, declare: string, body: string): string
  {
    importStr + "\n"
    + "declare module '" + frameworkName + "' {\n"
    + (if declare != "" then declare + "\n" else "")
    + body
    + "}\n"
  }

  /** The declaration file's text. */
  function Content(c: Collected, config: GeneratorConfig, base: BaseConfig, interfaceName: string): string
  {
    ModuleText(c.importStr, FrameworkName(config, base), DeclareBlock(config, interfaceName),
               Compose(Branch(c.interfaceMap), interfaceName, StrToFn(config.interfaceHandle), "  "))
  }

  /** A generator call's result together with the next value of the module-level counter. */
  datatype Generated = Generated(result: Result<GeneratorOutput>, nextId: nat)

  /** The generator as a function of its inputs and the counter. */
  function GenerateSpec(config: GeneratorConfig, base: BaseConfig, path: PathLib, uniqId: nat): (g: Generated)
    ensures g.result.Err? <==> config.fileList != [] && Collect(config.fileList, config, base, path).Err?
    ensures g.result.Ok? ==>
      g.result.value.dist == path.resolve(config.dtsDir, "index.d.ts") && (g.result.value.content.None? <==> config.fileList == [])
    ensures g.nextId == uniqId || g.nextId == uniqId + 1
  {
    var dist := path.resolve(config.dtsDir, "index.d.ts");
    if config.fileList == [] then Generated(Ok(GeneratorOutput(dist, None)), uniqId)
    else
      match Collect(config.fileList, config, base, path)
      case Err(e) => Generated(Err(e), uniqId)
      case Ok(c) =>
        var name := InterfaceNameFor(config, uniqId);
        var next := if Truthy(config.interfaceName) then uniqId else uniqId + 1;
        Generated(Ok(GeneratorOutput(dist, Some(Content(c, config, base, name)))), next)
  }

  /** The text `default_1` writes once the files are collected and the interface is named. */
  method WriteContent(c: Collected, config: GeneratorConfig, base: BaseConfig, interfaceName: string) returns (content: string)
    ensures content == Content(c, config, base, interfaceName)
  {
    var declareInterface := "";
    if Truthy(config.declareTo) {
      var interfaceList := Split(config.declareTo.value, '.');
      var arr := new StringArray(interfaceList[1..] + [interfaceName]);
      declareInterface := ComposeInterface(ArrayOf(arr), interfaceList[0], None, "  ");
    }
    var body := ComposeInterface(ObjectOf(Branch(c.interfaceMap)), interfaceName, StrToFn(config.interfaceHandle), "  ");
    content := ModuleText(c.importStr, FrameworkName(config, base), declareInterface, body);
  }

  /** The generator on a non-empty list whose files were all collected. */
  lemma GenerateSpecOk(config: GeneratorConfig, base: BaseConfig, path: PathLib, uniqId: nat, c: Collected)
    requires config.fileList != [] && Collect(config.fileList, config, base, path) == Ok(c)
    ensures GenerateSpec(config, base, path, uniqId)
      == Generated(Ok(GeneratorOutput(path.resolve(config.dtsDir, "index.d.ts"),
                                      Some(Content(c, config, base, InterfaceNameFor(config, uniqId))))),
                   if Truthy(config.interfaceName) then uniqId else uniqId + 1)
  {
  }

  /** A failure in the first `k` files is the failure of the whole loop. */
  lemma {:induction false} CollectErrPersists(files: seq<string>, k: nat, config: GeneratorConfig, base: BaseConfig, path: PathLib)
    requires k <= |files| && Collect(files[..k], config, base, path).Err?
    ensures Collect(files, config, base, path) == Collect(files[..k], config, base, path)
    decreases |files|
  {
    if k < |files| {
      var init := files[..|files| - 1];
      assert init[..k] == files[..k];
      CollectErrPersists(init, k, config, base, path);
      assert Collect(init, config, base, path).Err?;
    } else {
      assert files[..k] == files;
    }
  }

  /** One more file is one more step of the loop. */
  lemma CollectSnoc(files: seq<string>, i: nat, config: GeneratorConfig, base: BaseConfig, path: PathLib)
    requires i < |files| && Collect(files[..i], config, base, path).Ok?
    ensures Collect(files[..i + 1], config, base, path)
      == CollectFile(Collect(files[..i], config, base, path).value, files[i], config, base, path)
  {
    assert files[..i + 1][..i] == files[..i] && files[..i + 1][i] == files[i];
  }

  /** The `fileList.forEach` loop: import lines and the collector walk, file by file. */
  method CollectFiles(config: GeneratorConfig, base: BaseConfig, path: PathLib) returns (r: Result<Collected>)
    ensures r == Collect(config.fileList, config, base, path)
  {
    var fileList := config.fileList;
    var importStr := "";
    var interfaceMap: seq<Entry> := [];
    for i := 0 to |fileList|
      invariant Collect(fileList[..i], config, base, path) == Ok(Collected(importStr, interfaceMap))
    {
      var f := fileList[i];
      ghost var before := Collected(importStr, interfaceMap);
      CollectSnoc(fileList, i, config, base, path);
      var obj := GetModuleObjByPath(f);
      if obj.Err? {
        CollectErrPersists(fileList, i + 1, config, base, path);
        return Err(obj.error);
      }
      var moduleName := "Export" + obj.value.moduleName;
      var importContext := ImportLine(f, moduleName, config, path);
      importStr := importStr + importContext + "\n";
      var names := CasedPath(obj.value.props, EffectiveCaseStyle(config, base));
      if names.Err? {
        CollectErrPersists(fileList, i + 1, config, base, path);
        return Err(names.error);
      }
      var tree := Insert(interfaceMap, names.value, moduleName);
      if tree.Err? {
        CollectErrPersists(fileList, i + 1, config, base, path);
        return Err(tree.error);
      }
      interfaceMap := tree.value;
    }
    assert fileList[..|fileList|] == fileList;
    r := Ok(Collected(importStr, interfaceMap));
  }

  /** The module holding the `uniqId` counter that names anonymous interfaces. */
  class Generator {
    var uniqId: nat

    constructor ()
      ensures uniqId == 100
    {
      uniqId := 100;
    }

    /** `default_1(config, baseConfig)`. */
    method Generate(config: GeneratorConfig, base: BaseConfig, path: PathLib) returns (r: Result<GeneratorOutput>)
      modifies this
      ensures Generated(r, uniqId) == GenerateSpec(config, base, path, old(uniqId))
    {
      ghost var id0 := uniqId;
      var fileList := config.fileList;
      var dist := path.resolve(config.dtsDir, "index.d.ts");
      if |fileList| == 0 {
        return Ok(GeneratorOutput(dist, None));
      }
      var collected := CollectFiles(config, base, path);
      if collected.Err? {
        return Err(collected.error);
      }
      var interfaceName: string;
      if Truthy(config.interfaceName) {
        interfaceName := config.interfaceName.value;
      } else {
        interfaceName := "TC" + NatToString(uniqId);
        uniqId := uniqId + 1;
      }
      var content := WriteContent(collected.value, config, base, interfaceName);
      r := Ok(GeneratorOutput(dist, Some(content)));
      GenerateSpecOk(config, base, path, id0, collected.value);
    }
  }

  // ---------------------------------------------------------------------
  // Properties of the generator

  /** An empty file list produces only the file name and leaves the counter alone. */
  lemma EmptyFileList(config: GeneratorConfig, base: BaseConfig, path: PathLib, uniqId: nat)
    requires config.fileList == []
    ensures GenerateSpec(config, base, path, uniqId)
      == Generated(Ok(GeneratorOutput(path.resolve(config.dtsDir, "index.d.ts"), None)), uniqId)
  {
  }

  /**
   * The counter moves by one exactly when an interface name had to be
   * invented, and the invented names of different counter values differ.
   */
  lemma CounterAdvances(config: GeneratorConfig, base: BaseConfig, path: PathLib, uniqId: nat)
    ensures var g := GenerateSpec(config, base, path, uniqId);
      g.nextId == if g.result.Ok? && g.result.value.content.Some? && !Truthy(config.interfaceName) then uniqId + 1 else uniqId
  {
  }

  /** Without a configured name, different counter values name the interface differently. */
  lemma InventedNamesDistinct(config: GeneratorConfig, m: nat, n: nat)
    requires m != n && !Truthy(config.interfaceName)
    ensures InterfaceNameFor(config, m) != InterfaceNameFor(config, n)
  {
    NatToStringInjective(m, n);
    assert ("TC" + NatToString(m))[2..] == NatToString(m);
    assert ("TC" + NatToString(n))[2..] == NatToString(n);
  }

  /** A file whose path cannot be split into names makes the whole generation fail. */
  lemma {:induction false} CollectFailsOnBadPath(files: seq<string>, k: int, config: GeneratorConfig, base: BaseConfig, path: PathLib)
    requires 0 <= k < |files| && GetModuleObjByPath(files[k]).Err?
    ensures Collect(files, config, base, path).Err?
  {
    var init := files[..|files| - 1];
    var prev := Collect(init, config, base, path);
    if k < |files| - 1 {
      assert init[k] == files[k];
      CollectFailsOnBadPath(init, k, config, base, path);
      assert prev.Err?;
    } else if prev.Ok? {
      assert CollectFile(prev.value, files[k], config, base, path).Err?;
    }
  }

  /**
   * The import block on its own: one line per file, in file-list order,
   * computed from the file names alone.
   */
  function ImportLines(files: seq<string>, config: GeneratorConfig, path: PathLib): Result<string>
  {
    if files == [] then Ok("")
    else
      var f := files[|files| - 1];
      var prev :- ImportLines(files[..|files| - 1], config, path);
      var obj :- GetModuleObjByPath(f);
      Ok(prev + ImportLine(f, "Export" + obj.moduleName, config, path) + "\n")
  }

  /**
   * The loop's import text is the import block: it does not depend on the
   * case style or on the tree the same loop builds.
   */
  lemma {:induction false} CollectImports(files: seq<string>, config: GeneratorConfig, base: BaseConfig, path: PathLib)
    requires Collect(files, config, base, path).Ok?
    ensures ImportLines(files, config, path) == Ok(Collect(files, config, base, path).value.importStr)
  {
    if files != [] {
      var init := files[..|files| - 1];
      CollectLastImport(files, config, base, path);
      CollectImports(init, config, base, path);
    }
  }

  /** The last file's step appends its import line. */
  lemma CollectLastImport(files: seq<string>, config: GeneratorConfig, base: BaseConfig, path: PathLib)
    requires files != [] && Collect(files, config, base, path).Ok?
    ensures var init, f := files[..|files| - 1], files[|files| - 1];
      && Collect(init, config, base, path).Ok?
      && GetModuleObjByPath(f).Ok?
      && Collect(files, config, base, path).value.importStr
         == Collect(init, config, base, path).value.importStr
            + ImportLine(f, "Export" + GetModuleObjByPath(f).value.moduleName, config, path) + "\n"
  {
  }

  /** The tree the loop builds keeps every object's keys distinct. */
  lemma {:induction false} CollectWellFormed(files: seq<string>, config: GeneratorConfig, base: BaseConfig, path: PathLib)
    requires Collect(files, config, base, path).Ok?
    ensures WellFormed(Branch(Collect(files, config, base, path).value.interfaceMap))
  {
    if files != [] {
      var init := files[..|files| - 1];
      CollectWellFormed(init, config, base, path);
      var c := Collect(init, config, base, path).value;
      var f := files[|files| - 1];
      var obj := GetModuleObjByPath(f).value;
      var names := CasedPath(obj.props, EffectiveCaseStyle(config, base)).value;
      InsertWellFormed(c.interfaceMap, names, "Export" + obj.moduleName);
    }
  }

  /** After the loop, the last file's path leads to its exported type. */
  lemma LastFileVisible(files: seq<string>, config: GeneratorConfig, base: BaseConfig, path: PathLib)
    requires files != [] && Collect(files, config, base, path).Ok?
    ensures var obj := GetModuleObjByPath(files[|files| - 1]);
      obj.Ok? &&
      var names := CasedPath(obj.value.props, EffectiveCaseStyle(config, base));
      names.Ok? && |names.value| >= 1 &&
      LookupPath(Collect(files, config, base, path).value.interfaceMap, names.value) == Some(Leaf("Export" + obj.value.moduleName))
  {
    var c := Collect(files[..|files| - 1], config, base, path).value;
    var obj := GetModuleObjByPath(files[|files| - 1]).value;
    var names := CasedPath(obj.props, EffectiveCaseStyle(config, base)).value;
    InsertThenLookup(c.interfaceMap, names, "Export" + obj.moduleName);
  }

  /** The cased names a file's type is stored under. */
  function TypePath(f: string, config: GeneratorConfig, base: BaseConfig): Result<seq<string>>
  {
    var obj :- GetModuleObjByPath(f);
    CasedPath(obj.props, EffectiveCaseStyle(config, base))
  }

  /** Both paths exist, and `p` leaves `q` at some name: they agree before it and differ at it. */
  predicate BranchesOff(p: Result<seq<string>>, q: Result<seq<string>>)
  {
    p.Ok? && q.Ok? && exists i :: 0 <= i < |p.value| && i < |q.value| && p.value[..i] == q.value[..i] && p.value[i] != q.value[i]
  }

  /**
   * An earlier file's type stays reachable after the loop when every later
   * file's path branches off its path.
   */
  lemma {:induction false} EarlierFileVisible(files: seq<string>, config: GeneratorConfig, base: BaseConfig, path: PathLib, k: nat)
    requires k < |files| && Collect(files, config, base, path).Ok?
    requires forall j :: k < j < |files| ==> BranchesOff(TypePath(files[j], config, base), TypePath(files[k], config, base))
    ensures var obj := GetModuleObjByPath(files[k]);
      obj.Ok? && TypePath(files[k], config, base).Ok? && |TypePath(files[k], config, base).value| >= 1 &&
      LookupPath(Collect(files, config, base, path).value.interfaceMap, TypePath(files[k], config, base).value)
        == Some(Leaf("Export" + obj.value.moduleName))
  {
    var init := files[..|files| - 1];
    var f := files[|files| - 1];
    if k == |files| - 1 {
      LastFileVisible(files, config, base, path);
    } else {
      var c := Collect(init, config, base, path).value;
      forall j | k < j < |init|
        ensures BranchesOff(TypePath(init[j], config, base), TypePath(init[k], config, base))
      {
        assert init[j] == files[j] && init[k] == files[k];
      }
      EarlierFileVisible(init, config, base, path, k);
      assert init[k] == files[k];
      assert Collect(files, config, base, path) == CollectFile(c, f, config, base, path);
      CollectFileKeepsBranchingPath(c, f, config, base, path, TypePath(files[k], config, base).value);
    }
  }

  /** One file's walk leaves alone every path that branches off its own. */
  lemma CollectFileKeepsBranchingPath(c: Collected, f: string, config: GeneratorConfig, base: BaseConfig, path: PathLib, q: seq<string>)
    requires CollectFile(c, f, config, base, path).Ok? && BranchesOff(TypePath(f, config, base), Ok(q))
    ensures LookupPath(CollectFile(c, f, config, base, path).value.interfaceMap, q) == LookupPath(c.interfaceMap, q)
  {
    var obj := GetModuleObjByPath(f).value;
    var names := TypePath(f, config, base).value;
    var i :| 0 <= i < |names| && i < |q| && names[..i] == q[..i] && names[i] != q[i];
    InsertKeepsOtherPaths(c.interfaceMap, names, "Export" + obj.moduleName, q, i);
  }

  /** `declareTo: 'app.foo'` mounts the generated interface as a member `foo` of `app`. */
  lemma DeclareToExample(config: GeneratorConfig, name: string)
    requires config.declareTo == Some("app.foo")
    ensures DeclareBlock(config, name) == "  interface app {\n" + "    foo: " + name + ";\n" + "  }\n"
  {
    SplitAppFoo();
    var chain := Chain(["foo"] + [name]);
    var line := LeafLine("    ", "foo", name, None);
    var open, close := "  " + "interface " + "app" + " {\n", "  " + "}\n";
    DeclareText(name, open, close, line);
    assert ["app", "foo"][1..] + [name] == ["foo"] + [name];
    assert Body(chain, None, "  " + "  ") == line by {
      assert "  " + "  " == "    ";
      RenderChain(["foo"], name, None, "    ");
    }
  }

  lemma SplitAppFoo()
    ensures Split("app.foo", '.') == ["app", "foo"]
  {
    assert "app.foo" == "app" + ['.'] + "foo";
    SplitPrefix("app", "foo", '.');
    SplitNoSeparator("foo", '.');
  }

  lemma DeclareText(name: string, open: string, close: string, line: string)
    requires open == "  " + "interface " + "app" + " {\n" && close == "  " + "}\n"
    requires line == "    " + "foo" + ": " + name + ";\n"
    ensures open + line + close == "  interface app {\n" + "    foo: " + name + ";\n" + "  }\n"
  {
    assert open == "  interface app {\n" && close == "  }\n";
    assert "    " + "foo" + ": " == "    foo: ";
  }

  /**
   * A `declareTo` without a dot folds to the bare interface name, a string,
   * so the mount interface lists that name's characters by position.
   */
  lemma DeclareToSingleSegment(config: GeneratorConfig, name: string)
    requires config.declareTo.Some? && config.declareTo.value != "" && '.' !in config.declareTo.value
    ensures DeclareBlock(config, name)
      == "  " + "interface " + config.declareTo.value + " {\n" + RenderChars(name, None, "    ") + "  " + "}\n"
  {
    var d := config.declareTo.value;
    var parts := Split(d, '.');
    assert parts == [d] by { SplitNoSeparator(d, '.'); }
    assert Chain(parts[1..] + [name]) == Leaf(name) by { assert parts[1..] + [name] == [name]; }
    assert "  " + "  " == "    ";
  }

  /** The interface name `TC` in a single-segment mount renders as the members `0: T;` and `1: C;`. */
  lemma RenderCharsExample()
    ensures RenderChars("TC", None, "    ") == "    0: T;\n" + "    1: C;\n"
  {
    assert NatToString(0) == "0" && NatToString(1) == "1";
    var first := LeafLine("    ", "0", "T", None);
    var second := LeafLine("    ", "1", "C", None);
    assert first == "    0: T;\n" && second == "    1: C;\n";
    assert RenderChars("T", None, "    ") == first by {
      assert "T"[..0] == [] && "T"[0] == 'T';
    }
    assert RenderChars("TC", None, "    ") == first + second by {
      assert "TC"[..1] == "T" && "TC"[1] == 'C';
    }
  }
}
