/**
 Merging nested option dictionaries (clients/desktop/config_manager.py, _deep_merge and _deep_copy), and what
 a path leads to in the result.
 */
module OptionMerge {
  import opened Wrappers
  import opened OptionPaths

  /** A copy, built anew from the leaves up. */
  function Copy(n: Node): Node
    decreases n
  {
    match n
    case Dict(entries) => Dict(map k | k in entries :: Copy(entries[k]))
    case List(items) => List(seq(|items|, i requires 0 <= i < |items| => Copy(items[i])))
    case _ => n
  }

  lemma {:induction false} CopyIsSame(n: Node)
    ensures Copy(n) == n
    decreases n
  {
    match n
    case Dict(entries) =>
      forall k | k in entries ensures Copy(entries[k]) == entries[k] {
        CopyIsSame(entries[k]);
      }
      assert Copy(n).entries == entries;
    case List(items) =>
      forall i | 0 <= i < |items| ensures Copy(items[i]) == items[i] {
        CopyIsSame(items[i]);
      }
      assert Copy(n).items == items;
    case _ =>
  }

  /** Two values for one place: dictionaries merge key by key, and otherwise one of them wins. */
  function Merge(base: Node, over: Node, overrideWins: bool): Node
    decreases base
  {
    if base.Dict? && over.Dict? then
      Dict(map k | k in base.entries.Keys + over.entries.Keys ::
             if k !in base.entries then over.entries[k]
             else if k !in over.entries then base.entries[k]
             else Merge(base.entries[k], over.entries[k], overrideWins))
    else if overrideWins then over
    else base
  }

  /** The merge with only some of the override's keys gone through. */
  ghost function Partial(base: Entries, over: Entries, overrideWins: bool, done: set<string>): Entries
    requires done <= over.Keys
  {
    map k | k in base.Keys + done :: if k in done then MergedAt(base, over, overrideWins, k) else base[k]
  }

  function MergedAt(base: Entries, over: Entries, overrideWins: bool, k: string): Node
    requires k in over
  {
    if k in base then Merge(base[k], over[k], overrideWins) else over[k]
  }

  lemma PartialStep(base: Entries, over: Entries, overrideWins: bool, done: set<string>, key: string)
    requires done <= over.Keys && key in over && key !in done
    ensures var before := Partial(base, over, overrideWins, done);
            && (key in before <==> key in base)
            && (key in base ==> before[key] == base[key])
            && Partial(base, over, overrideWins, done + {key}) == before[key := MergedAt(base, over, overrideWins, key)]
  {
  }

  /** The same, told from the part already merged. */
  lemma PartialNext(base: Entries, over: Entries, overrideWins: bool, rest: set<string>, key: string)
    requires rest <= over.Keys && key in rest
    ensures var mine := Partial(base, over, overrideWins, over.Keys - rest);
            Partial(base, over, overrideWins, over.Keys - (rest - {key}))
            == mine[key := if key in mine then Merge(mine[key], over[key], overrideWins) else over[key]]
  {
    hide Partial, Merge;
    PartialStep(base, over, overrideWins, over.Keys - rest, key);
    assert over.Keys - rest + {key} == over.Keys - (rest - {key});
  }

  lemma PartialEnds(base: Entries, over: Entries, overrideWins: bool)
    ensures Partial(base, over, overrideWins, {}) == base
    ensures Dict(Partial(base, over, overrideWins, over.Keys)) == Merge(Dict(base), Dict(over), overrideWins)
  {
  }

  /** The merge as it runs: over the override's keys, in whatever order, into a copy of the base. */
  method DeepMerge(base: Entries, over: Entries, overrideWins: bool) returns (result: Entries)
    ensures Dict(result) == Merge(Dict(base), Dict(over), overrideWins)
    decreases Dict(over)
  {
    hide Merge, Partial, Copy;
    result := CopyEntries(base);
    CopyEntriesIsSame(base);
    PartialEnds(base, over, overrideWins);
    var rest := over.Keys;
    assert over.Keys - rest == {};
    while rest != {}
      invariant rest <= over.Keys
      invariant result == Partial(base, over, overrideWins, over.Keys - rest)
      decreases |rest|
    {
      var key :| key in rest;
      var value := over[key];
      CopyIsSame(value);
      PartialStep(base, over, overrideWins, over.Keys - rest, key);
      assert over.Keys - rest + {key} == over.Keys - (rest - {key});
      rest := rest - {key};
      if key !in result {
        result := result[key := Copy(value)];
      } else if value.Dict? && result[key].Dict? {
        var below := DeepMerge(result[key].entries, value.entries, overrideWins);
        result := result[key := Dict(below)];
      } else {
        LeafMerge(result[key], value, overrideWins);
        if overrideWins {
          result := result[key := Copy(value)];
        }
      }
    }
    assert over.Keys - {} == over.Keys;
  }

  lemma LeafMerge(base: Node, over: Node, overrideWins: bool)
    requires !(base.Dict? && over.Dict?)
    ensures Merge(base, over, overrideWins) == if overrideWins then over else base
  {
  }

  function CopyEntries(entries: Entries): Entries {
    map k | k in entries :: Copy(entries[k])
  }

  lemma CopyEntriesIsSame(entries: Entries)
    ensures CopyEntries(entries) == entries
  {
    forall k | k in entries ensures Copy(entries[k]) == entries[k] {
      CopyIsSame(entries[k]);
    }
  }

  // ------------------------------------------------------------ what one sees

  /** What a path of layer names leads to: a node, a place where a dictionary lacks the next name, or a leaf
      that bars the way. */
  datatype Sight = Here(node: Node) | Missing | Barred

  function See(n: Node, names: Layers): Sight
    decreases |names|
  {
    if names == [] then Here(n)
    else if !n.Dict? then Barred
    else if names[0] !in n.entries then Missing
    else See(n.entries[names[0]], names[1..])
  }

  /** Seeing is reading, for paths without empty layer names. */
  lemma {:induction false} SeeIsGet(n: Node, names: Layers)
    requires "" !in names
    ensures See(n, names).Here? <==> Get(n, names).Ok?
    ensures See(n, names).Here? ==> Get(n, names) == Ok(See(n, names).node)
    decreases |names|
  {
    if names != [] && n.Dict? && names[0] in n.entries {
      SeeIsGet(n.entries[names[0]], names[1..]);
    }
  }

  /** What the merged dictionary shows at a path, from what the two show there. */
  function Combined(base: Sight, over: Sight): Sight {
    match over
    case Here(o) => Here(if o.Dict? && base.Here? then Merge(base.node, o, true) else o)
    case Missing => base
    case Barred => Barred
  }

  // ------------------------------------------------------------ main results

  /** At every path: the override's leaf where it has one; the override's dictionary merged over the
      default's; the default where the override says nothing; and nothing where a leaf of the override cuts
      the path.  (Where neither has anything, the merge may be barred at a different place than either.) */
  lemma {:induction false} MergeIsPointwise(base: Node, over: Node, names: Layers)
    requires base.Dict? && over.Dict?
    ensures var s := See(Merge(base, over, true), names);
            var c := Combined(See(base, names), See(over, names));
            (s.Here? <==> c.Here?) && (s.Here? ==> s == c)
    decreases |names|
  {
    if names == [] {
    } else {
      var k := names[0];
      if k in base.entries && k in over.entries {
        var b, o := base.entries[k], over.entries[k];
        if b.Dict? && o.Dict? {
          MergeIsPointwise(b, o, names[1..]);
        } else if names[1..] != [] {
          assert See(b, names[1..]) == Barred || See(o, names[1..]) == Barred;
        }
      }
    }
  }

  /** Merging the same override again changes nothing. */
  lemma {:induction false} MergeIsIdempotent(base: Node, over: Node, overrideWins: bool)
    ensures Merge(Merge(base, over, overrideWins), over, overrideWins) == Merge(base, over, overrideWins)
    decreases base
  {
    if base.Dict? && over.Dict? {
      var once := Merge(base, over, overrideWins);
      forall k | k in over.entries
        ensures Merge(once.entries[k], over.entries[k], overrideWins) == once.entries[k]
      {
        if k in base.entries {
          MergeIsIdempotent(base.entries[k], over.entries[k], overrideWins);
        } else {
          MergeWithSelf(over.entries[k], overrideWins);
        }
      }
      assert Merge(once, over, overrideWins).entries == once.entries;
    } else if overrideWins {
      MergeWithSelf(over, true);
    }
  }

  lemma {:induction false} MergeWithSelf(n: Node, overrideWins: bool)
    ensures Merge(n, n, overrideWins) == n
    decreases n
  {
    if n.Dict? {
      forall k | k in n.entries ensures Merge(n.entries[k], n.entries[k], overrideWins) == n.entries[k] {
        MergeWithSelf(n.entries[k], overrideWins);
      }
      assert Merge(n, n, overrideWins).entries == n.entries;
    }
  }

  /** Letting the base win is letting the override win with the two exchanged. */
  lemma {:induction false} BaseWinsIsExchanged(a: Node, b: Node)
    ensures Merge(a, b, false) == Merge(b, a, true)
    decreases a
  {
    if a.Dict? && b.Dict? {
      forall k | k in a.entries && k in b.entries
        ensures Merge(a.entries[k], b.entries[k], false) == Merge(b.entries[k], a.entries[k], true)
      {
        BaseWinsIsExchanged(a.entries[k], b.entries[k]);
      }
      assert Merge(a, b, false).entries == Merge(b, a, true).entries;
    }
  }

  /** Does the override have every key the base has, wherever both are dictionaries? */
  predicate Covers(over: Node, base: Node)
    decreases base
  {
    base.Dict? && over.Dict? ==>
      forall k :: k in base.entries ==> k in over.entries && Covers(over.entries[k], base.entries[k])
  }

  /** An override makes the base invisible exactly if it covers it. */
  lemma {:induction false} HiddenIffCovered(base: Node, over: Node)
    ensures Merge(base, over, true) == over <==> Covers(over, base)
    decreases base
  {
    if base.Dict? && over.Dict? {
      var merged := Merge(base, over, true);
      forall k | k in base.entries && k in over.entries
        ensures merged.entries[k] == over.entries[k] <==> Covers(over.entries[k], base.entries[k])
      {
        HiddenIffCovered(base.entries[k], over.entries[k]);
      }
      if Covers(over, base) {
        assert merged.entries == over.entries;
      } else if k :| k in base.entries && k !in over.entries {
        assert k in merged.entries;
      } else {
        var k :| k in base.entries && !Covers(over.entries[k], base.entries[k]);
        assert merged.entries[k] != over.entries[k];
      }
    }
  }

  /** Some place holds a dictionary, then a leaf, then a dictionary that does not cover the first. */
  ghost predicate Clash(a: Node, b: Node, c: Node)
    decreases a
  {
    a.Dict? && c.Dict? &&
    if !b.Dict? then !Covers(c, a)
    else
      exists k ::
        k in a.entries && k in b.entries && k in c.entries && Clash(a.entries[k], b.entries[k], c.entries[k])
  }

  /** Layering three dictionaries gives the same either way round exactly when they do not clash: merging is
      not associative in general. */
  lemma {:induction false} AssociativeIff(a: Node, b: Node, c: Node)
    ensures Merge(Merge(a, b, true), c, true) == Merge(a, Merge(b, c, true), true) <==> !Clash(a, b, c)
    decreases a
  {
    if !b.Dict? {
      HiddenIffCovered(a, c);
    }
    if a.Dict? && b.Dict? && c.Dict? {
      var left, right := Merge(Merge(a, b, true), c, true), Merge(a, Merge(b, c, true), true);
      assert left.entries.Keys == right.entries.Keys;
      forall k | k in a.entries && k in b.entries && k in c.entries
        ensures left.entries[k] == right.entries[k] <==> !Clash(a.entries[k], b.entries[k], c.entries[k])
      {
        AssociativeIff(a.entries[k], b.entries[k], c.entries[k]);
      }
      if !Clash(a, b, c) {
        forall k | k in left.entries ensures left.entries[k] == right.entries[k] {
        }
        assert left.entries == right.entries;
      } else {
        var k :| k in a.entries && k in b.entries && k in c.entries && Clash(a.entries[k], b.entries[k], c.entries[k]);
        assert left.entries[k] != right.entries[k];
      }
    }
  }
}
