/**
 Copying and merging dictionaries as objects (clients/desktop/config_manager.py, _deep_copy, _deep_merge,
 get_client_options): what is returned is built from new objects only, so that changing it cannot change the
 stored profile.
 */
module FreshViews {
  import opened Wrappers
  import opened OptionPaths
  import M = OptionMerge

  /** A Python value: a dictionary or list object, or a plain value. */
  datatype Value = OfDict(dict: DictObject) | OfList(list: ListObject) | Plain(leaf: Node)

  class DictObject {
    var entries: map<string, Value>

    constructor (entries: map<string, Value>)
      ensures this.entries == entries
    {
      this.entries := entries;
    }
  }

  class ListObject {
    var items: seq<Value>

    constructor (items: seq<Value>)
      ensures this.items == items
    {
      this.items := items;
    }
  }

  /** The value stands for the tree, and every object in it belongs to the footprint. */
  ghost predicate Shows(v: Value, n: Node, foot: set<object>)
    reads foot
    decreases n
  {
    match n
    case Dict(entries) => v.OfDict? && v.dict in foot && ShowsEntries(v.dict.entries, n, foot)
    case List(items) => v.OfList? && v.list in foot && ShowsItems(v.list.items, n, foot)
    case _ => v == Plain(n)
  }

  ghost predicate ShowsEntries(e: map<string, Value>, n: Node, foot: set<object>)
    requires n.Dict?
    reads foot
    decreases n, 0
  {
    e.Keys == n.entries.Keys && forall k :: k in n.entries ==> Shows(e[k], n.entries[k], foot)
  }

  ghost predicate ShowsItems(items: seq<Value>, n: Node, foot: set<object>)
    requires n.List?
    reads foot
    decreases n, 0
  {
    |items| == |n.items| && forall i :: 0 <= i < |items| ==> Shows(items[i], n.items[i], foot)
  }

  lemma {:induction false} Wider(v: Value, n: Node, foot: set<object>, more: set<object>)
    requires Shows(v, n, foot) && foot <= more
    ensures Shows(v, n, more)
    decreases n
  {
    match n
    case Dict(entries) =>
      forall k | k in entries ensures Shows(v.dict.entries[k], entries[k], more) {
        Wider(v.dict.entries[k], entries[k], foot, more);
      }
    case List(items) =>
      forall i | 0 <= i < |items| ensures Shows(v.list.items[i], items[i], more) {
        Wider(v.list.items[i], items[i], foot, more);
      }
    case _ =>
  }

  method DeepCopy(v: Value, ghost n: Node, ghost foot: set<object>) returns (copy: Value, ghost made: set<object>)
    requires Shows(v, n, foot)
    ensures Shows(copy, n, made) && fresh(made)
    decreases n, 1
  {
    match v {
      case OfDict(dict) =>
        var entries;
        entries, made := CopyEntries(dict.entries, n, foot);
        var d := new DictObject(entries);
        copy := OfDict(d);
        forall k | k in entries ensures Shows(entries[k], n.entries[k], made + {d}) {
          Wider(entries[k], n.entries[k], made, made + {d});
        }
        made := made + {d};
      case OfList(list) =>
        var items := [];
        made := {};
        for i := 0 to |list.items|
          invariant |items| == i && fresh(made)
          invariant forall j :: 0 <= j < i ==> Shows(items[j], n.items[j], made)
        {
          var item, more := DeepCopy(list.items[i], n.items[i], foot);
          forall j | 0 <= j < i ensures Shows(items[j], n.items[j], made + more) {
            Wider(items[j], n.items[j], made, made + more);
          }
          Wider(item, n.items[i], more, made + more);
          items, made := items + [item], made + more;
        }
        var l := new ListObject(items);
        copy := OfList(l);
        forall j | 0 <= j < |items| ensures Shows(items[j], n.items[j], made + {l}) {
          Wider(items[j], n.items[j], made, made + {l});
        }
        made := made + {l};
      case Plain(leaf) =>
        copy, made := v, {};
    }
  }

  method CopyEntries(entries: map<string, Value>, ghost n: Node, ghost foot: set<object>)
    returns (copies: map<string, Value>, ghost made: set<object>)
    requires n.Dict? && ShowsEntries(entries, n, foot)
    ensures ShowsEntries(copies, n, made) && fresh(made)
    decreases n, 0
  {
    hide Shows, ShowsEntries;
    copies, made := map[], {};
    var rest := entries.Keys;
    ghost var shown: Entries := map[];
    EntryShows(entries, n, foot, "");
    NoEntries(made);
    while rest != {}
      invariant rest <= entries.Keys && fresh(made)
      invariant ShowsEntries(copies, Dict(shown), made)
      invariant shown == map k | k in n.entries && k !in rest :: n.entries[k]
      decreases |rest|
    {
      var key :| key in rest;
      EntryShows(entries, n, foot, key);
      var copy, more := DeepCopy(entries[key], n.entries[key], foot);
      Wider(copy, n.entries[key], more, made + more);
      EntryReplaced(copies, Dict(shown), made, more, key, copy, n.entries[key]);
      shown := shown[key := n.entries[key]];
      copies, made, rest := copies[key := copy], made + more, rest - {key};
    }
    assert shown == n.entries;
  }

  lemma NoEntries(foot: set<object>)
    ensures ShowsEntries(map[], Dict(map[]), foot)
  {
  }

  /** Leaves are told from dictionaries by what they show. */
  lemma DictShows(v: Value, n: Node, foot: set<object>)
    requires Shows(v, n, foot)
    ensures v.OfDict? <==> n.Dict?
    ensures v.OfDict? ==> v.dict in foot && ShowsEntries(v.dict.entries, n, foot)
  {
  }

  lemma WiderEntries(e: map<string, Value>, n: Node, foot: set<object>, more: set<object>)
    requires n.Dict? && ShowsEntries(e, n, foot) && foot <= more
    ensures ShowsEntries(e, n, more)
  {
    forall k | k in n.entries ensures Shows(e[k], n.entries[k], more) {
      Wider(e[k], n.entries[k], foot, more);
    }
  }

  /** What one key of the merge comes to: a copy, a merge, or what is there already. */
  method MergeKey(mine: map<string, Value>, key: string, value: Value, overrideWins: bool,
                  ghost m: Node, ghost o: Node, ghost kids: set<object>, ghost foot: set<object>)
    returns (merged: Value, ghost made: set<object>)
    requires Shows(value, o, foot) && (key in mine ==> Shows(mine[key], m, kids))
    ensures Shows(merged, if key in mine then M.Merge(m, o, overrideWins) else o, kids + made) && fresh(made)
    decreases o, 2
  {
    hide Shows, ShowsEntries, M.Merge;
    made := {};
    DictShows(value, o, foot);
    if key !in mine {
      merged, made := DeepCopy(value, o, foot);
      Wider(merged, o, made, kids + made);
      return;
    }
    DictShows(mine[key], m, kids);
    if value.OfDict? && mine[key].OfDict? {
      WiderEntries(mine[key].dict.entries, m, kids, kids + foot);
      WiderEntries(value.dict.entries, o, foot, kids + foot);
      var d;
      d, made := DeepMerge(mine[key].dict, value.dict, overrideWins, m, o, kids + foot);
      merged := OfDict(d);
      Wider(merged, M.Merge(m, o, overrideWins), made, kids + made);
      return;
    }
    M.LeafMerge(m, o, overrideWins);
    if overrideWins {
      merged, made := DeepCopy(value, o, foot);
      Wider(merged, o, made, kids + made);
    } else {
      merged := mine[key];
      Wider(merged, m, kids, kids + made);
    }
  }

  lemma EntryShows(e: map<string, Value>, n: Node, foot: set<object>, key: string)
    requires n.Dict? && ShowsEntries(e, n, foot)
    ensures e.Keys == n.entries.Keys && (key in e ==> Shows(e[key], n.entries[key], foot))
  {
  }

  lemma EntryReplaced(e: map<string, Value>, n: Node, kids: set<object>, more: set<object>, key: string, v: Value,
                      m: Node)
    requires n.Dict? && ShowsEntries(e, n, kids) && Shows(v, m, kids + more)
    ensures ShowsEntries(e[key := v], Dict(n.entries[key := m]), kids + more)
  {
    WiderEntries(e, n, kids, kids + more);
  }

  lemma ObjectShows(d: DictObject, n: Node, kids: set<object>)
    requires n.Dict? && ShowsEntries(d.entries, n, kids)
    ensures Shows(OfDict(d), n, kids + {d})
  {
    WiderEntries(d.entries, n, kids, kids + {d});
  }

  /** One key of the override merged into the result. */
  method MergeOne(result: DictObject, key: string, value: Value, overrideWins: bool,
                  ghost mine: Entries, ghost o: Node, ghost kids: set<object>, ghost foot: set<object>)
    returns (ghost made: set<object>)
    requires ShowsEntries(result.entries, Dict(mine), kids) && Shows(value, o, foot)
    requires result !in kids && result !in foot
    modifies result
    ensures ShowsEntries(result.entries,
                         Dict(mine[key := if key in mine then M.Merge(mine[key], o, overrideWins) else o]), kids + made)
    ensures fresh(made) && result !in made
    decreases o, 3
  {
    hide Shows, ShowsEntries, M.Merge;
    EntryShows(result.entries, Dict(mine), kids, key);
    ghost var m := if key in mine then mine[key] else EMPTY;
    var merged;
    merged, made := MergeKey(result.entries, key, value, overrideWins, m, o, kids, foot);
    EntryReplaced(result.entries, Dict(mine), kids, made, key, merged,
                  if key in mine then M.Merge(m, o, overrideWins) else o);
    result.entries := result.entries[key := merged];
  }

  /** Merging into a copy of the base: everything the result consists of is new. */
  method DeepMerge(base: DictObject, over: DictObject, overrideWins: bool,
                   ghost b: Node, ghost o: Node, ghost foot: set<object>)
    returns (result: DictObject, ghost made: set<object>)
    requires b.Dict? && o.Dict? && over in foot
    requires ShowsEntries(base.entries, b, foot) && ShowsEntries(over.entries, o, foot)
    ensures Shows(OfDict(result), M.Merge(b, o, overrideWins), made) && fresh(made)
    decreases o, 1
  {
    hide Shows, ShowsEntries, M.Merge, M.Partial;
    var entries, kids := CopyEntries(base.entries, b, foot);
    result := new DictObject(entries);
    M.PartialEnds(b.entries, o.entries, overrideWins);
    var items := over.entries;
    var rest := items.Keys;
    ghost var mine := b.entries;
    EntryShows(items, o, foot, "");
    assert o.entries.Keys - rest == {} && Dict(mine) == b;
    while rest != {}
      invariant rest <= o.entries.Keys && fresh(kids) && fresh(result) && result !in kids
      invariant ShowsEntries(items, o, foot)
      invariant mine == M.Partial(b.entries, o.entries, overrideWins, o.entries.Keys - rest)
      invariant ShowsEntries(result.entries, Dict(mine), kids)
      decreases |rest|
    {
      var key :| key in rest;
      M.PartialNext(b.entries, o.entries, overrideWins, rest, key);
      EntryShows(items, o, foot, key);
      ghost var more := MergeOne(result, key, items[key], overrideWins, mine, o.entries[key], kids, foot);
      kids, rest := kids + more, rest - {key};
      mine := M.Partial(b.entries, o.entries, overrideWins, o.entries.Keys - rest);
    }
    assert o.entries.Keys - {} == o.entries.Keys;
    ObjectShows(result, Dict(mine), kids);
    made := kids + {result};
  }

  /** The options for a server as objects: they show the merged view, and share no object with the profile
      they were made from. */
  method GetClientOptions(defaults: DictObject, overrides: Option<DictObject>,
                          ghost d: Node, ghost o: Node, ghost profile: set<object>)
    returns (options: DictObject, ghost made: set<object>)
    requires d.Dict? && ShowsEntries(defaults.entries, d, profile)
    requires overrides.Some? ==>
               o.Dict? && overrides.value in profile && ShowsEntries(overrides.value.entries, o, profile)
    ensures Shows(OfDict(options), if overrides.Some? then M.Merge(d, o, true) else d, made)
    ensures fresh(made) && made !! profile
  {
    hide Shows, ShowsEntries, M.Merge;
    var entries, kids := CopyEntries(defaults.entries, d, profile);
    options := new DictObject(entries);
    made := kids + {options};
    ObjectShows(options, d, kids);
    if overrides.Some? {
      WiderEntries(overrides.value.entries, o, profile, profile + made);
      WiderEntries(options.entries, d, kids, profile + made);
      options, made := DeepMerge(options, overrides.value, true, d, o, profile + made);
    }
  }
}
