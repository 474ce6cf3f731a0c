/** A set of named layers, each a base layer read from a Gerber file and an
    optional extra layer, kept in the order the names were first added. The
    parsed layer is an opaque value of type L. */
module LayerSets {
  import opened Common

  /** The base layer and the optional extra layer stored under one name. */
  datatype Entry<L> = Entry(base: L, extra: Option<L>)

  /** An insertion-ordered map: `order` lists each key once, in the order it
      was inserted, and `entries` holds the value of each key. */
  datatype LayerTable<L> = LayerTable(order: seq<string>, entries: map<string, Entry<L>>)
  {
    ghost predicate Valid()
    {
      && (forall i, j :: 0 <= i < j < |order| ==> order[i] != order[j])
      && (forall k :: k in entries <==> k in order)
    }
  }

  /** The layer name of a Gerber file: its name without the last four
      characters (the extension with its dot). */
  function LayerName(filename: string): (name: string)
    ensures |filename| >= 4 ==> name == filename[..|filename| - 4]
    ensures |filename| < 4 ==> name == []
  {
    Slice(filename, 0, -4)
  }

  /** The table after reading a new base layer for `name`: an existing entry
      gets the new base and keeps its extra layer; a new name is appended at
      the end of the order with no extra layer. */
  function Update<L>(t: LayerTable<L>, name: string, base: L): LayerTable<L>
  {
    if name in t.entries then
      LayerTable(t.order, t.entries[name := Entry(base, t.entries[name].extra)])
    else
      LayerTable(t.order + [name], t.entries[name := Entry(base, None)])
  }

  /** A list of distinct names holds as many names as it is long. */
  lemma {:induction false} DistinctNamesCount(order: seq<string>)
    requires forall i, j :: 0 <= i < j < |order| ==> order[i] != order[j]
    ensures |set x | x in order| == |order|
    decreases |order|
  {
    if order != [] {
      var init := order[..|order| - 1];
      var last := order[|order| - 1];
      DistinctNamesCount(init);
      forall i | 0 <= i < |init| ensures init[i] != last {
        assert init[i] == order[i];
      }
      assert (set x | x in order) == (set x | x in init) + {last};
    }
  }

  /** A valid table has as many keys as its order has names. */
  lemma SizeMatchesOrder<L>(t: LayerTable<L>)
    requires t.Valid()
    ensures |t.entries| == |t.order|
  {
    DistinctNamesCount(t.order);
    assert t.entries.Keys == set x | x in t.order;
  }

  /** Update keeps the table valid. */
  lemma UpdateValid<L>(t: LayerTable<L>, name: string, base: L)
    requires t.Valid()
    ensures Update(t, name, base).Valid()
  {
    var u := Update(t, name, base);
    if name !in t.entries {
      forall i, j | 0 <= i < j < |u.order| ensures u.order[i] != u.order[j] {
        if j == |t.order| {
          assert u.order[i] == t.order[i];
        }
      }
    }
  }

  /** Updating a name already present replaces its base layer, keeps its
      extra layer, and changes neither the order nor the size. */
  lemma UpdateExisting<L>(t: LayerTable<L>, name: string, base: L)
    requires t.Valid() && name in t.entries
    ensures Update(t, name, base).order == t.order
    ensures Update(t, name, base).entries[name] == Entry(base, t.entries[name].extra)
    ensures |Update(t, name, base).entries| == |t.entries|
  {
  }

  /** Updating an absent name appends it to the order with no extra layer,
      and the table grows by exactly one entry. */
  lemma UpdateNew<L>(t: LayerTable<L>, name: string, base: L)
    requires t.Valid() && name !in t.entries
    ensures Update(t, name, base).order == t.order + [name]
    ensures Update(t, name, base).entries[name] == Entry(base, None)
    ensures |Update(t, name, base).entries| == |t.entries| + 1
    ensures |Update(t, name, base).order| == |Update(t, name, base).entries|
  {
    SizeMatchesOrder(t);
  }

  /** Every other name keeps its entry and its place in the order. */
  lemma UpdateFrame<L>(t: LayerTable<L>, name: string, base: L, other: string)
    requires other != name
    ensures other in Update(t, name, base).entries <==> other in t.entries
    ensures other in t.entries ==> Update(t, name, base).entries[other] == t.entries[other]
    ensures Update(t, name, base).order[..|t.order|] == t.order
  {
  }

  /** The layers of a project, by name, in insertion order. */
  class LayerSet<L> {
    var order: seq<string>
    var layers: map<string, Entry<L>>

    /** The table the two fields represent. */
    function Table(): LayerTable<L>
      reads this
    {
      LayerTable(order, layers)
    }

    ghost predicate Valid()
      reads this
    {
      Table().Valid()
    }

    /** A new layer set holds no layers. */
    constructor ()
      ensures Valid()
      ensures order == [] && layers == map[]
    {
      order := [];
      layers := map[];
    }

    /** Stores `newBase`, the layer read from `filename`, under the file's
        layer name. */
    method UpdateFromGerber(filename: string, newBase: L)
      requires Valid()
      modifies this
      ensures Valid()
      ensures Table() == Update(old(Table()), LayerName(filename), newBase)
    {
      var name := LayerName(filename);
      UpdateValid(Table(), name, newBase);
      if name in layers {
        var extra := layers[name].extra;
        layers := layers[name := Entry(newBase, extra)];
      } else {
        order := order + [name];
        layers := layers[name := Entry(newBase, None)];
      }
    }
  }
}
