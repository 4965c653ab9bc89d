/**
 * The device registry: the skill's dictionary from device name to device
 * family. Python dictionaries keep insertion order, and the order is
 * observable (lookups that return "the first key", spoken device lists), so
 * the registry is a sequence of entries whose names are pairwise distinct.
 */
module DeviceRegistry {
  import opened Wrappers

  datatype Entry = Entry(name: string, family: string)

  type Registry = seq<Entry>

  /** The names occurring in a sequence of entries (for a registry: its keys). */
  function Keys(es: seq<Entry>): set<string> {
    if es == [] then {} else {es[0].name} + Keys(es[1..])
  }

  /** No name occurs twice, as in a dictionary. */
  predicate Valid(r: Registry) {
    r == [] || (r[0].name !in Keys(r[1..]) && Valid(r[1..]))
  }

  /** The dictionary's keys in iteration order. */
  function Names(r: Registry): (ns: seq<string>)
    ensures |ns| == |r|
    ensures forall i :: 0 <= i < |r| ==> ns[i] == r[i].name
  {
    if r == [] then [] else [r[0].name] + Names(r[1..])
  }

  /** A name is a key exactly when some entry carries it. */
  lemma {:induction false} KeysIndex(es: seq<Entry>, k: string)
    ensures k in Keys(es) <==> exists i :: 0 <= i < |es| && es[i].name == k
  {
    if es != [] {
      KeysIndex(es[1..], k);
      if exists i :: 0 <= i < |es| && es[i].name == k {
        var i :| 0 <= i < |es| && es[i].name == k;
        if i > 0 { assert es[1..][i - 1].name == k; }
      }
      if exists i :: 0 <= i < |es[1..]| && es[1..][i].name == k {
        var i :| 0 <= i < |es[1..]| && es[1..][i].name == k;
        assert es[i + 1].name == k;
      }
    }
  }

  /** The family stored under `name`, if any. */
  function Lookup(r: Registry, name: string): (f: Option<string>)
    ensures f.Some? <==> name in Keys(r)
  {
    if r == [] then None
    else if r[0].name == name then Some(r[0].family)
    else Lookup(r[1..], name)
  }

  /** `d[name] = family`: an existing key keeps its position and takes the new
      family; a new key is appended. Every other key keeps its family. */
  function Put(r: Registry, name: string, family: string): (r': Registry)
    requires Valid(r)
    ensures Valid(r')
    ensures Keys(r') == Keys(r) + {name}
    ensures Lookup(r', name) == Some(family)
    ensures forall k :: k != name ==> Lookup(r', k) == Lookup(r, k)
    ensures name in Keys(r) ==> Names(r') == Names(r)
    ensures name !in Keys(r) ==> Names(r') == Names(r) + [name]
  {
    if r == [] then [Entry(name, family)]
    else if r[0].name == name then
      var r' := [Entry(name, family)] + r[1..];
      assert r'[1..] == r[1..];
      r'
    else
      var r' := [r[0]] + Put(r[1..], name, family);
      assert r'[1..] == Put(r[1..], name, family);
      r'
  }

  /** In a valid registry the number of keys is the number of entries, so the
      registry's length is Python's `len(d)`. */
  lemma {:induction false} SizeIsKeyCount(r: Registry)
    requires Valid(r)
    ensures |Keys(r)| == |r|
  {
    if r != [] {
      SizeIsKeyCount(r[1..]);
    }
  }

  /** The family of the last entry named `k`, if any: the reference meaning of
      "later assignments win". */
  function LastFamily(es: seq<Entry>, k: string): (f: Option<string>)
    ensures f.Some? <==> k in Keys(es)
    ensures f.Some? ==> exists i :: 0 <= i < |es| && es[i] == Entry(k, f.value) && LastNamed(es, i)
  {
    if es == [] then None
    else
      var later := LastFamily(es[1..], k);
      if later.Some? then
        assert exists i :: 0 <= i < |es| && es[i] == Entry(k, later.value) && LastNamed(es, i) by {
          var i :| 0 <= i < |es[1..]| && es[1..][i] == Entry(k, later.value) && LastNamed(es[1..], i);
          assert es[i + 1] == es[1..][i];
          assert forall j :: i + 1 < j < |es| ==> es[j] == es[1..][j - 1];
        }
        later
      else if es[0].name == k then
        assert LastNamed(es, 0) by {
          forall j | 0 < j < |es| ensures es[j].name != es[0].name {
            assert es[j] == es[1..][j - 1];
            KeysIndex(es[1..], k);
          }
        }
        Some(es[0].family)
      else None
  }

  /** The entry at `i` is the last one in `es` carrying its name. */
  predicate LastNamed(es: seq<Entry>, i: int)
    requires 0 <= i < |es|
  {
    forall j :: i < j < |es| ==> es[j].name != es[i].name
  }

  /** `LastFamily` finds the family of every entry that is last with its name. */
  lemma {:induction false} LastFamilyOfLastNamed(es: seq<Entry>, i: int)
    requires 0 <= i < |es| && LastNamed(es, i)
    ensures LastFamily(es, es[i].name) == Some(es[i].family)
  {
    var k := es[i].name;
    if i == 0 {
      KeysIndex(es[1..], k);
      assert forall j :: 0 <= j < |es[1..]| ==> es[1..][j] == es[j + 1];
    } else {
      assert LastNamed(es[1..], i - 1) by {
        forall j | i - 1 < j < |es[1..]| ensures es[1..][j].name != es[1..][i - 1].name {
          assert es[1..][j] == es[j + 1];
        }
      }
      LastFamilyOfLastNamed(es[1..], i - 1);
    }
  }

  /** Assigns the entries in order into `acc`. */
  function Merge(acc: Registry, es: seq<Entry>): (r: Registry)
    requires Valid(acc)
    ensures Valid(r)
    ensures Keys(r) == Keys(acc) + Keys(es)
    ensures forall k :: Lookup(r, k) == if k in Keys(es) then LastFamily(es, k) else Lookup(acc, k)
    decreases |es|
  {
    if es == [] then acc
    else Merge(Put(acc, es[0].name, es[0].family), es[1..])
  }

  /** No name occurs twice in `ns`. */
  predicate Distinct(ns: seq<string>) {
    forall i, j :: 0 <= i < j < |ns| ==> ns[i] != ns[j]
  }

  /** The names of `ns` in the order of their first occurrence: the reference
      for the key order of a dictionary filled by successive assignments. */
  function FirstOccurrences(ns: seq<string>): (d: seq<string>)
    ensures forall x :: x in d <==> x in ns
    ensures Distinct(d)
    ensures ns != [] ==> d != [] && d[0] == ns[0]
  {
    if ns == [] then []
    else
      var init := ns[..|ns| - 1];
      var x := ns[|ns| - 1];
      assert ns == init + [x];
      var p := FirstOccurrences(init);
      assert |init| > 0 ==> init[0] == ns[0];
      if x in p then p else p + [x]
  }

  /** A sequence without repeated names is its own first-occurrence order. */
  lemma {:induction false} FirstOccurrencesOfDistinct(ns: seq<string>)
    requires Distinct(ns)
    ensures FirstOccurrences(ns) == ns
  {
    if ns != [] {
      var init := ns[..|ns| - 1];
      var x := ns[|ns| - 1];
      assert Distinct(init) by {
        forall i, j | 0 <= i < j < |init| ensures init[i] != init[j] {
          assert init[i] == ns[i] && init[j] == ns[j];
        }
      }
      FirstOccurrencesOfDistinct(init);
      assert x !in init by {
        forall i | 0 <= i < |init| ensures init[i] != x {
          assert init[i] == ns[i];
        }
      }
      assert FirstOccurrences(ns) == FirstOccurrences(init) + [x];
      assert ns == init + [x];
    }
  }

  /** A name is a key exactly when it is among the names in iteration order. */
  lemma {:induction false} KeysAreNames(es: seq<Entry>)
    ensures forall k :: k in Keys(es) <==> k in Names(es)
  {
    if es != [] {
      KeysAreNames(es[1..]);
      assert Names(es) == [es[0].name] + Names(es[1..]);
    }
  }

  /** The names of a valid registry are pairwise distinct. */
  lemma {:induction false} ValidNamesDistinct(r: Registry)
    requires Valid(r)
    ensures Distinct(Names(r))
  {
    if r != [] {
      ValidNamesDistinct(r[1..]);
      KeysAreNames(r[1..]);
      assert Names(r) == [r[0].name] + Names(r[1..]);
    }
  }

  /** The two readings of "no name twice" agree: the recursive `Valid` and
      pairwise distinct names in iteration order. */
  lemma {:induction false} ValidIsDistinctNames(r: Registry)
    ensures Valid(r) <==> Distinct(Names(r))
  {
    if Valid(r) {
      ValidNamesDistinct(r);
    }
    if r != [] && Distinct(Names(r)) {
      var rest := Names(r[1..]);
      assert Names(r) == [r[0].name] + rest;
      assert Distinct(rest) by {
        forall i, j | 0 <= i < j < |rest| ensures rest[i] != rest[j] {
          assert rest[i] == Names(r)[i + 1] && rest[j] == Names(r)[j + 1];
        }
      }
      ValidIsDistinctNames(r[1..]);
      KeysAreNames(r[1..]);
      assert r[0].name !in rest by {
        forall i | 0 <= i < |rest| ensures rest[i] != r[0].name {
          assert rest[i] == Names(r)[i + 1];
        }
      }
    }
  }

  /** Assigning one more entry after the others is a `Put` on the result. */
  lemma {:induction false} MergeSnoc(acc: Registry, es: seq<Entry>, e: Entry)
    requires Valid(acc)
    ensures Merge(acc, es + [e]) == Put(Merge(acc, es), e.name, e.family)
    decreases |es|
  {
    if es == [] {
      assert es + [e] == [e];
      assert [e][1..] == [];
    } else {
      assert (es + [e])[0] == es[0];
      assert (es + [e])[1..] == es[1..] + [e];
      MergeSnoc(Put(acc, es[0].name, es[0].family), es[1..], e);
    }
  }

  lemma FirstOccurrencesSnoc(ns: seq<string>, x: string)
    ensures FirstOccurrences(ns + [x]) == if x in ns then FirstOccurrences(ns) else FirstOccurrences(ns) + [x]
  {
    var after := ns + [x];
    assert after[..|after| - 1] == ns;
  }

  lemma NamesSnoc(es: seq<Entry>, e: Entry)
    ensures Names(es + [e]) == Names(es) + [e.name]
  {
  }

  /** Merging keeps the old keys in place and appends each new name where it
      first occurs. */
  lemma {:induction false} MergeKeepsInsertionOrder(acc: Registry, es: seq<Entry>)
    requires Valid(acc)
    ensures Names(Merge(acc, es)) == FirstOccurrences(Names(acc) + Names(es))
    decreases |es|
  {
    if es == [] {
      assert Names(acc) + Names(es) == Names(acc);
      ValidNamesDistinct(acc);
      FirstOccurrencesOfDistinct(Names(acc));
    } else {
      var init := es[..|es| - 1];
      var e := es[|es| - 1];
      assert es == init + [e];
      MergeKeepsInsertionOrder(acc, init);
      var prev := Merge(acc, init);
      var before := Names(acc) + Names(init);
      NamesSnoc(init, e);
      assert Names(acc) + Names(es) == before + [e.name];
      FirstOccurrencesSnoc(before, e.name);
      KeysAreNames(acc);
      KeysAreNames(init);
      assert e.name in Keys(prev) <==> e.name in before;
      MergeSnoc(acc, init, e);
    }
  }

  lemma MergeFromEmptyKeepsOrder(es: seq<Entry>)
    ensures Names(Merge([], es)) == FirstOccurrences(Names(es))
    ensures es != [] ==> Merge([], es) != [] && Merge([], es)[0].name == es[0].name
  {
    MergeKeepsInsertionOrder([], es);
    assert Names([]) + Names(es) == Names(es);
    if es != [] {
      var r := Merge([], es);
      assert Names(es)[0] == es[0].name;
      assert |r| == |Names(r)| > 0;
      assert r[0].name == Names(r)[0];
    }
  }

  lemma LastFamilyOfEveryLastNamed(es: seq<Entry>)
    ensures forall i :: 0 <= i < |es| && LastNamed(es, i) ==> LastFamily(es, es[i].name) == Some(es[i].family)
  {
    forall i | 0 <= i < |es| && LastNamed(es, i) ensures LastFamily(es, es[i].name) == Some(es[i].family) {
      LastFamilyOfLastNamed(es, i);
    }
  }

  /** The registry built from an empty dictionary by assigning the entries in
      order: its keys are exactly the names assigned, in the order each name
      was first assigned, and every key maps to the family of the last entry
      with that name. */
  function Build(es: seq<Entry>): (r: Registry)
    ensures Valid(r)
    ensures Keys(r) == Keys(es)
    ensures Names(r) == FirstOccurrences(Names(es))
    ensures es != [] ==> r != [] && r[0].name == es[0].name
    ensures forall k :: Lookup(r, k) == LastFamily(es, k)
    ensures forall i :: 0 <= i < |es| && LastNamed(es, i) ==> Lookup(r, es[i].name) == Some(es[i].family)
  {
    MergeFromEmptyKeepsOrder(es);
    LastFamilyOfEveryLastNamed(es);
    Merge([], es)
  }
}
