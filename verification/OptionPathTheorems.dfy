/** What setting and deleting do to a tree of options, at every path. */
module OptionPathTheorems {
  import opened Wrappers
  import opened OptionPaths

  /** The layers a path really goes through. */
  function Names(path: Layers): Layers
    decreases |path|
  {
    if path == [] then [] else (if path[0] == "" then [] else [path[0]]) + Names(path[1..])
  }

  lemma {:induction false} GetByNames(n: Node, path: Layers)
    ensures Get(n, path) == Get(n, Names(path))
    decreases |path|
  {
    if path == [] {
    } else {
      if path[0] == "" {
        GetByNames(n, path[1..]);
        assert Names(path) == Names(path[1..]);
      } else {
        assert Names(path)[1..] == Names(path[1..]);
        if Enter(n, path[0]).Ok? {
          GetByNames(Enter(n, path[0]).value, path[1..]);
        }
      }
    }
  }

  lemma {:induction false} NamesAppend(p: Layers, q: Layers)
    ensures Names(p + q) == Names(p) + Names(q)
    decreases |p|
  {
    if p == [] {
      assert p + q == q;
    } else {
      assert (p + q)[1..] == p[1..] + q;
      NamesAppend(p[1..], q);
    }
  }

  lemma {:induction false} NoEmptyNames(path: Layers)
    ensures "" !in Names(path)
    decreases |path|
  {
    if path == [] {
    } else {
      NoEmptyNames(path[1..]);
    }
  }

  lemma {:induction false} GetAppend(n: Node, p: Layers, q: Layers)
    requires Get(n, p).Ok?
    ensures Get(n, p + q) == Get(Get(n, p).value, q)
    decreases |p|
  {
    if p == [] {
      assert p + q == q;
    } else {
      assert (p + q)[1..] == p[1..] + q;
      GetAppend(if p[0] == "" then n else Enter(n, p[0]).value, p[1..], q);
    }
  }

  /** What is put at a path is found there. */
  lemma {:induction false} GetPut(n: Node, path: Layers, v: Node)
    requires Get(n, path).Ok?
    ensures Get(Put(n, path, v), path) == Ok(v)
    decreases |path|
  {
    if path == [] {
    } else {
      GetPut(if path[0] == "" then n else n.entries[path[0]], path[1..], v);
    }
  }

  /** Of two puts at a path the second counts, and putting back what is there changes nothing. */
  lemma {:induction false} PutPut(n: Node, path: Layers, v: Node, w: Node)
    requires Get(n, path).Ok? && Get(Put(n, path, v), path).Ok?
    ensures Put(Put(n, path, v), path, w) == Put(n, path, w)
    ensures Put(n, path, Get(n, path).value) == n
    decreases |path|
  {
    if path == [] {
    } else {
      if path[0] == "" {
        PutPut(n, path[1..], v, w);
      } else {
        PutPut(n.entries[path[0]], path[1..], v, w);
        var put := Put(n, path, v);
        assert put.entries[path[0]] == Put(n.entries[path[0]], path[1..], v);
        assert Put(put, path, w).entries == Put(n, path, w).entries;
        assert n.entries[path[0] := n.entries[path[0]]] == n.entries;
      }
    }
  }

  // --------------------------------------------------------------- setting

  /** Setting below the first layer of a path sets in the child and changes nothing else. */
  lemma SetStep(n: Node, path: Layers, key: string, v: Node, create: bool)
    requires path != [] && path[0] != "" && SetAt(n, path, key, v, create).Ok?
    ensures n.Dict? && (!create ==> path[0] in n.entries)
    ensures var below := SetAt(EnterOrCreate(n, path[0]).value, path[1..], key, v, create);
            below.Ok? && SetAt(n, path, key, v, create).value == Dict(n.entries[path[0] := below.value])
  {
    GrownHasPath(n, path, create);
    GrownHasPath(EnterOrCreate(n, path[0]).value, path[1..], create);
    if create {
      var grown := Grown(EnterOrCreate(n, path[0]).value, path[1..]);
      assert n.entries[path[0] := grown][path[0]] == grown;
    }
  }

  /** A set value is what the path leads to, and beyond it the value's own layers. */
  lemma {:induction false} SetThenGet(n: Node, path: Layers, key: string, v: Node, create: bool, beyond: Layers)
    requires key != "" && SetAt(n, path, key, v, create).Ok?
    ensures Get(SetAt(n, path, key, v, create).value, path + [key] + beyond) == Get(v, beyond)
    decreases |path|
  {
    var n' := SetAt(n, path, key, v, create).value;
    if path == [] {
      assert path + [key] + beyond == [key] + beyond && ([key] + beyond)[1..] == beyond;
    } else {
      assert (path + [key] + beyond)[1..] == path[1..] + [key] + beyond;
      if path[0] == "" {
        SetThenGet(n, path[1..], key, v, create, beyond);
      } else {
        SetStep(n, path, key, v, create);
        SetThenGet(EnterOrCreate(n, path[0]).value, path[1..], key, v, create, beyond);
      }
    }
  }

  /** Setting a path leaves every path that neither leads to it nor on from it as it was, errors included. */
  lemma SetLeavesOthers(n: Node, path: Layers, key: string, v: Node, create: bool, q: Layers)
    requires key != "" && SetAt(n, path, key, v, create).Ok? && Apart(Names(path + [key]), Names(q))
    ensures Get(SetAt(n, path, key, v, create).value, q) == Get(n, q)
  {
    GetByNames(n, q);
    GetByNames(SetAt(n, path, key, v, create).value, q);
    NamesAppend(path, [key]);
    NoEmptyNames(q);
    SetLeavesNamed(n, path, key, v, create, Names(q));
  }

  lemma {:induction false} SetLeavesNamed(n: Node, path: Layers, key: string, v: Node, create: bool, q: Layers)
    requires key != "" && SetAt(n, path, key, v, create).Ok? && "" !in q
    requires !(Names(path) + [key] <= q) && !(q <= Names(path) + [key])
    ensures Get(SetAt(n, path, key, v, create).value, q) == Get(n, q)
    decreases |path|
  {
    if path == [] {
      assert q[0] == key ==> [key] <= q;
    } else if path[0] == "" {
      SetLeavesNamed(n, path[1..], key, v, create, q);
    } else {
      SetStep(n, path, key, v, create);
      if q[0] == path[0] {
        ShorterUnrelated(path[0], Names(path[1..]) + [key], q);
        SetLeavesNamed(EnterOrCreate(n, path[0]).value, path[1..], key, v, create, q[1..]);
      }
    }
  }

  lemma ShorterUnrelated(name: string, p: Layers, q: Layers)
    requires q != [] && q[0] == name && !([name] + p <= q) && !(q <= [name] + p)
    ensures !(p <= q[1..]) && !(q[1..] <= p)
  {
    var rest := q[1..];
    assert q == [name] + rest;
    assert p <= rest ==> [name] + p <= [name] + rest;
    assert rest <= p ==> [name] + rest <= [name] + p;
  }

  // -------------------------------------------------------------- deleting

  /** The tree with one key gone and nothing pruned. */
  function Bare(n: Node, path: Layers, key: string): Node
    requires Get(n, path).Ok? && Get(n, path).value.Dict?
  {
    Put(n, path, Dict(Get(n, path).value.entries - {key}))
  }

  /** The tree a deletion leaves. */
  function Deleted(n: Node, path: Layers, key: string, prune: bool): Node
    requires Get(n, path).Ok? && Get(n, path).value.Dict?
  {
    if prune then Prune(Bare(n, path, key), path).tree else Bare(n, path, key)
  }

  /** A deleted key is missing, and so is everything beyond it. */
  lemma {:induction false} DeletedIsMissing(n: Node, path: Layers, key: string, prune: bool, beyond: Layers)
    requires key != "" && Get(n, path).Ok? && Get(n, path).value.Dict?
    ensures Get(Deleted(n, path, key, prune), path + [key] + beyond) == Err(KeyError)
    decreases |path|
  {
    if path == [] {
      assert path + [key] + beyond == [key] + beyond;
    } else {
      assert (path + [key] + beyond)[1..] == path[1..] + [key] + beyond;
      DeletedIsMissing(if path[0] == "" then n else n.entries[path[0]], path[1..], key, prune, beyond);
    }
  }

  /** Deleting leaves every path that neither leads to the key nor on from it as it was, errors included:
      pruning takes away nothing that anybody else can see. */
  lemma DeleteLeavesOthers(n: Node, path: Layers, key: string, prune: bool, q: Layers)
    requires key != "" && Apart(Names(path + [key]), Names(q))
    ensures Get(DeleteAt(n, path, key, prune).tree, q) == Get(n, q)
  {
    if DeleteAt(n, path, key, prune).outcome == Ok(true) {
      GetByNames(n, q);
      GetByNames(Deleted(n, path, key, prune), q);
      NamesAppend(path, [key]);
      NoEmptyNames(q);
      DeletedLeavesNamed(n, path, key, prune, Names(q));
    }
  }

  lemma {:induction false} DeletedLeavesNamed(n: Node, path: Layers, key: string, prune: bool, q: Layers)
    requires key != "" && Get(n, path).Ok? && Get(n, path).value.Dict? && "" !in q
    requires !(Names(path) + [key] <= q) && !(q <= Names(path) + [key])
    ensures Get(Deleted(n, path, key, prune), q) == Get(n, q)
    decreases |path|
  {
    if path == [] {
      assert q[0] == key ==> [key] <= q;
    } else if path[0] == "" {
      DeletedLeavesNamed(n, path[1..], key, prune, q);
    } else if q[0] == path[0] {
      ShorterUnrelated(path[0], Names(path[1..]) + [key], q);
      DeletedLeavesNamed(n.entries[path[0]], path[1..], key, prune, q[1..]);
    }
  }

  /** After a deletion with pruning no layer on the path is left empty, if no layer name is empty. */
  lemma DeleteLeavesNoEmptyLayer(n: Node, path: Layers, key: string, i: nat)
    requires DeleteAt(n, path, key, true).outcome == Ok(true) && "" !in path && 0 < i <= |path|
    ensures Get(DeleteAt(n, path, key, true).tree, path[..i]) != Ok(EMPTY)
  {
    GetPut(n, path, Dict(Get(n, path).value.entries - {key}));
    PruneLeavesNoEmptyLayer(Bare(n, path, key), path, i);
  }

  lemma {:induction false} PruneLeavesNoEmptyLayer(n: Node, path: Layers, i: nat)
    requires Get(n, path).Ok? && "" !in path && i <= |path|
    ensures Prune(n, path).on
    ensures 0 < i ==> Get(Prune(n, path).tree, path[..i]) != Ok(EMPTY)
    decreases |path|
  {
    if path == [] {
    } else {
      var child := n.entries[path[0]];
      PruneLeavesNoEmptyLayer(child, path[1..], if i == 0 then 0 else i - 1);
      if i > 0 {
        assert path[..i][0] == path[0] && path[..i][1..] == path[1..][..i - 1];
      }
    }
  }

  // -------------------------------------------------- creating and deleting

  /** Setting in create mode goes through exactly if no node on the way that is there already is anything but a
      dictionary. */
  lemma CreateSucceedsIff(n: Node, path: Layers, key: string, v: Node)
    ensures SetAt(n, path, key, v, true).Ok? <==> forall i :: 0 <= i <= |path| ==> NoLeafAt(n, path[..i])
  {
    OpenIff(n, path);
  }

  /** Setting without creating goes through exactly if the path leads to a dictionary that has the key; otherwise
      the error says what is missing. */
  lemma PlainSetSucceedsIff(n: Node, path: Layers, key: string, v: Node)
    ensures SetAt(n, path, key, v, false).Ok? <==>
            Get(n, path).Ok? && Get(n, path).value.Dict? && key in Get(n, path).value.entries
    ensures Get(n, path).Ok? && Get(n, path).value.Dict? && key !in Get(n, path).value.entries ==>
              SetAt(n, path, key, v, false) == Err(KeyError)
  {
  }

  /** Is what is there at a path, if anything, a dictionary? */
  predicate NoLeafAt(n: Node, path: Layers) {
    Get(n, path).Ok? ==> Get(n, path).value.Dict?
  }

  lemma {:induction false} OpenIff(n: Node, path: Layers)
    ensures GetOrCreate(n, path).Ok? && GetOrCreate(n, path).value.Dict? <==>
              forall i :: 0 <= i <= |path| ==> NoLeafAt(n, path[..i])
    decreases |path|
  {
    assert path[..0] == [] && path[..|path|] == path;
    if path == [] {
      assert NoLeafAt(n, path[..0]) <==> n.Dict?;
    } else if path[0] != "" && !n.Dict? {
      assert !NoLeafAt(n, path[..0]);
    } else if path[0] != "" && path[0] !in n.entries {
      FreshCannotFail(path[1..]);
      forall i | 0 <= i <= |path| ensures NoLeafAt(n, path[..i]) {
        assert i > 0 ==> path[..i][0] == path[0];
      }
    } else {
      var m := if path[0] == "" then n else n.entries[path[0]];
      OpenIff(m, path[1..]);
      forall i | 0 < i <= |path| ensures NoLeafAt(n, path[..i]) <==> NoLeafAt(m, path[1..][..i - 1]) {
        assert path[..i][0] == path[0] && path[..i][1..] == path[1..][..i - 1];
      }
      assert NoLeafAt(n, path[..0]) <==> n.Dict?;
      if path[0] == "" && !n.Dict? {
        assert !NoLeafAt(m, path[1..][..0]);
      } else if j :| 0 <= j <= |path[1..]| && !NoLeafAt(m, path[1..][..j]) {
        assert !NoLeafAt(n, path[..j + 1]);
      }
    }
  }

  /** No layer on the path that is there already is empty, and none that is not yet there is followed by an
      empty layer name.  (An empty layer is harmless if an empty layer name follows: pruning stops there.) */
  predicate Restorable(n: Node, path: Layers)
    decreases |path|
  {
    if path == [] then true
    else if path[0] == "" then Restorable(n, path[1..])
    else if n.Dict? && path[0] in n.entries then
      && (n.entries[path[0]] == EMPTY ==> "" in path[1..])
      && Restorable(n.entries[path[0]], path[1..])
    else "" !in path[1..]
  }

  predicate Absent(n: Node, path: Layers, key: string) {
    !(Get(n, path).Ok? && Get(n, path).value.Dict? && key in Get(n, path).value.entries)
  }

  /** Pruning what a read in create mode grew. */
  lemma {:induction false} PruneGrown(n: Node, path: Layers)
    requires GetOrCreate(n, path).Ok?
    ensures var p := Prune(Grown(n, path), path);
            && (p.tree == n <==> Restorable(n, path))
            && (n == EMPTY ==> p.on == ("" !in path) && (p.on ==> p.tree == EMPTY))
            && (p.tree == EMPTY ==> p.on == ("" !in path))
    decreases |path|
  {
    if path == [] {
    } else {
      if path[0] == "" {
        PruneGrown(n, path[1..]);
      } else {
        var child := EnterOrCreate(n, path[0]).value;
        PruneGrown(child, path[1..]);
        var p := Prune(Grown(n, path), path);
        if path[0] in n.entries {
          assert n.entries[path[0] := child] == n.entries;
        } else {
          assert n.entries[path[0] := child] - {path[0]} == n.entries;
        }
      }
    }
  }

  /** Deleting a value just created, without pruning, leaves the layers that were created for it. */
  lemma CreateThenBare(n: Node, path: Layers, key: string, v: Node)
    requires key != "" && SetAt(n, path, key, v, true).Ok? && Absent(n, path, key)
    ensures DeleteAt(SetAt(n, path, key, v, true).value, path, key, false) == Deletion(Grown(n, path), Ok(true))
  {
    GrownHasPath(n, path, true);
    var grown, obj := Grown(n, path), GetOrCreate(n, path).value;
    if Get(n, path).Ok? {
      PresentStays(n, path);
    } else {
      CreatedIsEmpty(n, path);
    }
    GetPut(grown, path, Dict(obj.entries[key := v]));
    assert obj.entries[key := v] - {key} == obj.entries;
    PutPut(grown, path, Dict(obj.entries[key := v]), obj);
  }

  lemma {:induction false} CreatedIsEmpty(n: Node, path: Layers)
    requires Get(n, path).Err? && GetOrCreate(n, path).Ok?
    ensures GetOrCreate(n, path) == Ok(EMPTY)
    decreases |path|
  {
    if path[0] == "" {
      CreatedIsEmpty(n, path[1..]);
    } else if path[0] in n.entries {
      CreatedIsEmpty(n.entries[path[0]], path[1..]);
    } else {
      FreshCannotFail(path[1..]);
    }
  }

  /** Creating a value at an absent path and deleting it again with pruning restores the tree exactly when
      no layer that was there already is empty and no created layer is followed by an empty layer name. */
  lemma CreateThenDelete(n: Node, path: Layers, key: string, v: Node)
    requires key != "" && SetAt(n, path, key, v, true).Ok? && Absent(n, path, key)
    ensures var d := DeleteAt(SetAt(n, path, key, v, true).value, path, key, true);
            d.outcome == Ok(true) && (d.tree == n <==> Restorable(n, path))
  {
    CreateThenBare(n, path, key, v);
    PruneGrown(n, path);
  }

  const WITH_EMPTY_LAYER: Node := Dict(map["a" := EMPTY])

  /** A tree that is not restored: an empty layer that was there goes with the option created in it. */
  lemma EmptyLayerIsLost(v: Node)
    ensures var n := WITH_EMPTY_LAYER;
            && SetAt(n, ["a"], "k", v, true).Ok? && Absent(n, ["a"], "k")
            && DeleteAt(SetAt(n, ["a"], "k", v, true).value, ["a"], "k", true).tree == EMPTY != n
  {
    var n := WITH_EMPTY_LAYER;
    assert Enter(n, "a") == Ok(EMPTY) && ["a"][1..] == [];
    CreateThenBare(n, ["a"], "k", v);
    PruneEmptyLayer();
  }

  lemma PruneEmptyLayer()
    ensures GetOrCreate(WITH_EMPTY_LAYER, ["a"]).Ok?
    ensures Grown(WITH_EMPTY_LAYER, ["a"]) == WITH_EMPTY_LAYER && Prune(WITH_EMPTY_LAYER, ["a"]).tree == EMPTY
  {
    assert ["a"][1..] == [];
    assert Prune(EMPTY, []).tree == EMPTY;
  }

  /** Without empty layer names the condition is that no layer already there is empty. */
  lemma {:induction false} RestorableIff(n: Node, path: Layers)
    requires "" !in path
    ensures Restorable(n, path) <==> forall i :: 0 < i <= |path| ==> Get(n, path[..i]) != Ok(EMPTY)
    decreases |path|
  {
    if path == [] {
    } else if Enter(n, path[0]).Err? {
      assert forall i :: 0 < i <= |path| ==> path[..i][0] == path[0];
    } else {
      var child := n.entries[path[0]];
      RestorableIff(child, path[1..]);
      assert forall i :: 0 < i <= |path| ==> path[..i][0] == path[0] && path[..i][1..] == path[1..][..i - 1];
      assert Get(n, path[..1]) == Get(child, path[..1][1..]);
      if Restorable(n, path) {
        forall i | 0 < i <= |path| ensures Get(n, path[..i]) != Ok(EMPTY) {
          assert Get(n, path[..i]) == Get(child, path[1..][..i - 1]);
        }
      } else if child != EMPTY {
        var i :| 0 < i <= |path[1..]| && Get(child, path[1..][..i]) == Ok(EMPTY);
        assert Get(n, path[..i + 1]) == Get(child, path[1..][..i]);
      }
    }
  }
}
