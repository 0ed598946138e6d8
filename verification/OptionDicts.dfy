/**
 The module functions of clients/desktop/config_manager.py as they run: a dictionary that is walked layer by
 layer and changed in place.
 */
module OptionDicts {
  import opened Wrappers
  import opened OptionPaths
  import opened OptionPathTheorems

  // -------------------------------------------------- what calls amount to

  /** Setting by key path: the tree afterwards, or the error. */
  function SetSpec(n: Node, p: KeyPath, v: Node, create: bool): Result<Node, Failure> {
    match Parse(p)
    case Err(e) => Err(e)
    case Ok(layers) =>
      if layers == [] || layers[|layers| - 1] == "" then Err(ValueError)
      else SetAt(n, layers[..|layers| - 1], layers[|layers| - 1], v, create)
  }

  function DeleteSpec(n: Node, p: KeyPath, prune: bool): Deletion {
    match Parse(p)
    case Err(e) => Deletion(n, Err(e))
    case Ok(layers) =>
      if layers == [] || layers[|layers| - 1] == "" then Deletion(n, Err(ValueError))
      else DeleteAt(n, layers[..|layers| - 1], layers[|layers| - 1], prune)
  }

  /** `layer in scope`. */
  function Holds(scope: Node, layer: string): Result<bool, Failure> {
    match scope
    case Dict(entries) => Ok(layer in entries)
    case Str(text) => Ok(Contains(text, layer))
    case List(items) => Ok(Str(layer) in items)
    case _ => Err(TypeError)
  }

  // ------------------------------------------------- splitting paths in two

  lemma {:induction false} GrownAppend(n: Node, pre: Layers, rest: Layers)
    requires Get(n, pre).Ok?
    ensures GetOrCreate(n, pre + rest) == GetOrCreate(Get(n, pre).value, rest)
    ensures Grown(n, pre + rest) == Put(n, pre, Grown(Get(n, pre).value, rest))
    decreases |pre|
  {
    if pre == [] {
      assert pre + rest == rest;
    } else {
      assert (pre + rest)[1..] == pre[1..] + rest;
      GrownAppend(if pre[0] == "" then n else n.entries[pre[0]], pre[1..], rest);
    }
  }

  lemma {:induction false} PutAppend(n: Node, pre: Layers, rest: Layers, v: Node)
    requires Get(n, pre).Ok? && Get(n, pre + rest).Ok? && Get(Get(n, pre).value, rest).Ok?
    ensures Put(n, pre + rest, v) == Put(n, pre, Put(Get(n, pre).value, rest, v))
    decreases |pre|
  {
    if pre == [] {
      assert pre + rest == rest;
    } else {
      assert (pre + rest)[1..] == pre[1..] + rest;
      PutAppend(if pre[0] == "" then n else n.entries[pre[0]], pre[1..], rest, v);
    }
  }

  /** Where pruning stopped below, it goes no further above. */
  lemma {:induction false} StoppedStays(n: Node, pre: Layers, rest: Layers)
    requires Get(n, pre).Ok? && !Prune(Get(n, pre).value, rest).on
    ensures Prune(n, pre + rest) == Pruning(Put(n, pre, Prune(Get(n, pre).value, rest).tree), false)
    decreases |pre|
  {
    if pre == [] {
      assert pre + rest == rest;
    } else {
      assert (pre + rest)[1..] == pre[1..] + rest;
      StoppedStays(if pre[0] == "" then n else n.entries[pre[0]], pre[1..], rest);
    }
  }

  /** Adding one missing layer is a step of growing the whole path. */
  lemma CreateOne(n: Node, path: Layers, l: nat)
    requires l < |path| && Get(n, path[..l]).Ok? && Get(n, path[..l]).value.Dict?
    requires path[l] != "" && path[l] !in Get(n, path[..l]).value.entries
    ensures var scope := Dict(Get(n, path[..l]).value.entries[path[l] := EMPTY]);
            var n' := Put(n, path[..l], scope);
            && Grown(n', path) == Grown(n, path) && GetOrCreate(n, path) == GetOrCreate(scope, path[l..])
            && Get(n', path[..l]) == Ok(scope)
  {
    var pre, rest := path[..l], path[l..];
    assert path == pre + rest;
    var before := Get(n, pre).value;
    var scope := Dict(before.entries[path[l] := EMPTY]);
    var n' := Put(n, pre, scope);
    GetPut(n, pre, scope);
    GrownAppend(n, pre, rest);
    GrownAppend(n', pre, rest);
    var below := Grown(EMPTY, rest[1..]);
    assert before.entries[path[l] := EMPTY][path[l] := below] == before.entries[path[l] := below];
    assert Grown(scope, rest) == Grown(before, rest);
    PutPut(n, pre, scope, Grown(scope, rest));
  }

  lemma GetOneMore(n: Node, path: Layers, l: nat)
    requires l < |path| && Get(n, path[..l]).Ok?
    ensures Get(n, path[..l + 1]) == Get(Get(n, path[..l]).value, [path[l]])
  {
    assert path[..l + 1] == path[..l] + [path[l]];
    GetAppend(n, path[..l], [path[l]]);
  }

  /** The whole tree with one layer of a path replaced, and what pruning does at the next layer up. */
  lemma PruneOne(n: Node, path: Layers, i: nat)
    requires i < |path| && Get(n, path[..i + 1]).Ok? && Prune(Get(n, path[..i + 1]).value, path[i + 1..]).on
    ensures Get(n, path[..i]).Ok?
    ensures var p := Prune(Get(n, path[..i + 1]).value, path[i + 1..]);
            var up := Prune(Get(n, path[..i]).value, path[i..]);
            var tree := Put(n, path[..i + 1], p.tree);
            && Get(tree, path[..i + 1]) == Ok(p.tree)
            && Get(tree, path[..i]).Ok?
            && (p.tree != EMPTY ==> up.on && Put(n, path[..i], up.tree) == tree)
            && (p.tree == EMPTY && path[i] == "" ==> Get(tree, path[..i]) == Ok(EMPTY) && Prune(n, path).tree == tree)
            && (p.tree == EMPTY && path[i] != "" ==>
                  var parent := Get(tree, path[..i]).value;
                  && parent.Dict? && path[i] in parent.entries && up == Pruning(Dict(parent.entries - {path[i]}), true)
                  && Put(tree, path[..i], up.tree) == Put(n, path[..i], up.tree))
  {
    PrefixExists(n, path, i);
    GetOneMore(n, path, i);
    var pre, x := path[..i], path[i];
    var above := Get(n, pre).value;
    var p := Prune(Get(n, path[..i + 1]).value, path[i + 1..]);
    var up := Prune(above, path[i..]);
    assert path[i..][1..] == path[i + 1..] && path[..i + 1] == pre + [x] && path == pre + path[i..];
    PutAppend(n, pre, [x], p.tree);
    var parent := Put(above, [x], p.tree);
    GetPut(n, pre, parent);
    GetPut(n, path[..i + 1], p.tree);
    PutPut(n, pre, parent, up.tree);
    if x == "" && p.tree == EMPTY {
      StoppedStays(n, pre, path[i..]);
    }
    if x != "" {
      assert above.entries[x := p.tree] - {x} == above.entries - {x};
    }
  }

  lemma {:induction false} PrefixExists(n: Node, path: Layers, i: nat)
    requires i < |path| && Get(n, path[..i + 1]).Ok?
    ensures Get(n, path[..i]).Ok?
    decreases i
  {
    if i == 0 {
    } else {
      assert path[..i + 1][0] == path[0] && path[..i + 1][1..] == path[1..][..i];
      assert path[..i][0] == path[0] && path[..i][1..] == path[1..][..i - 1];
      PrefixExists(if path[0] == "" then n else n.entries[path[0]], path[1..], i - 1);
    }
  }

  /** A dictionary object: everything below it is its value. */
  class OptionDict {
    var root: Node

    constructor (entries: Entries)
      ensures root == Dict(entries)
    {
      root := Dict(entries);
    }

    /** Walks down a path; in create mode missing layers are added on the way.  A failure has changed nothing. */
    method GetItem(path: Layers, create: bool) returns (item: Result<Node, Failure>)
      modifies this
      ensures item == if create then GetOrCreate(old(root), path) else Get(old(root), path)
      ensures root == if create then Grown(old(root), path) else old(root)
      ensures item.Err? ==> root == old(root)
      ensures item.Ok? ==> Get(root, path) == item
    {
      var scope := root;
      for l := 0 to |path|
        invariant Get(root, path[..l]) == Ok(scope)
        invariant create ==> Grown(root, path) == Grown(old(root), path)
        invariant create ==> GetOrCreate(old(root), path) == GetOrCreate(scope, path[l..])
        invariant !create ==> root == old(root) && Get(root, path) == Get(scope, path[l..])
        invariant root != old(root) ==> scope == EMPTY
      {
        GetOneMore(root, path, l);
        if path[l] == "" {
          continue;
        }
        var layer := path[l];
        if create && GetOrCreate(old(root), path).Err? {
          FailedReadCreatesNothing(old(root), path);
        }
        var held := Holds(scope, layer);
        if held.Err? {
          return Err(held.error);
        }
        if !held.value {
          if !create {
            return Err(KeyError);
          }
          if !scope.Dict? {
            return Err(TypeError);
          }
          CreateOne(root, path, l);
          scope := Dict(scope.entries[layer := EMPTY]);
          root := Put(root, path[..l], scope);
          GetOneMore(root, path, l);
        }
        if !scope.Dict? {
          return Err(TypeError);
        }
        scope := scope.entries[layer];
      }
      assert path[..|path|] == path;
      PresentStays(root, path);
      return Ok(scope);
    }

    method SetItem(keyPath: KeyPath, value: Node, create: bool) returns (outcome: Result<bool, Failure>)
      modifies this
      ensures match SetSpec(old(root), keyPath, value, create)
              case Ok(tree) => root == tree && outcome == Ok(true)
              case Err(e) => root == old(root) && outcome == Err(e)
    {
      var parsed := Parse(keyPath);
      if parsed.Err? {
        return Err(parsed.error);
      }
      var layers := parsed.value;
      if layers == [] || layers[|layers| - 1] == "" {
        return Err(ValueError);
      }
      var finalKey, path := layers[|layers| - 1], layers[..|layers| - 1];
      if Get(root, path).Ok? {
        PresentStays(root, path);
      } else if create && GetOrCreate(root, path).Ok? {
        CreatedIsEmpty(root, path);
      }
      var obj := GetItem(path, create);
      if obj.Err? {
        return Err(obj.error);
      }
      if !obj.value.Dict? {
        return Err(TypeError);
      }
      if !create && finalKey !in obj.value.entries {
        return Err(KeyError);
      }
      root := Put(root, path, Dict(obj.value.entries[finalKey := value]));
      return Ok(true);
    }

    method DeleteItem(keyPath: KeyPath, prune: bool) returns (outcome: Result<bool, Failure>)
      modifies this
      ensures Deletion(root, outcome) == DeleteSpec(old(root), keyPath, prune)
    {
      var parsed := Parse(keyPath);
      if parsed.Err? {
        return Err(parsed.error);
      }
      var layers := parsed.value;
      if layers == [] || layers[|layers| - 1] == "" {
        return Err(ValueError);
      }
      var finalKey, path := layers[|layers| - 1], layers[..|layers| - 1];
      var obj := GetItem(path, false);
      if obj.Err? {
        return Err(obj.error);
      }
      if !obj.value.Dict? {
        return Err(TypeError);
      }
      if finalKey !in obj.value.entries {
        return Ok(false);
      }
      root := Put(root, path, Dict(obj.value.entries - {finalKey}));
      if prune {
        GetPut(old(root), path, Dict(obj.value.entries - {finalKey}));
        PruneLayers(path);
      }
      return Ok(true);
    }

    /** Walks from the deepest layer to the shallowest and removes the ones that are empty. */
    method PruneLayers(path: Layers)
      requires Get(root, path).Ok?
      modifies this
      ensures root == Prune(old(root), path).tree
    {
      ghost var bare := root;
      assert path[..|path|] == path && path[|path|..] == [];
      GetPut(bare, path, Get(bare, path).value);
      PutPut(bare, path, Get(bare, path).value, bare);
      for i := |path| downto 0
        invariant Get(bare, path[..i]).Ok?
        invariant Prune(Get(bare, path[..i]).value, path[i..]).on
        invariant root == Put(bare, path[..i], Prune(Get(bare, path[..i]).value, path[i..]).tree)
      {
        PruneOne(bare, path, i);
        var obj := GetItem(path[..i + 1], false);
        if obj.value == EMPTY {
          var parent := GetItem(path[..i], false);
          if path[i] !in parent.value.entries {
            return;
          }
          root := Put(root, path[..i], Dict(parent.value.entries - {path[i]}));
        }
      }
      assert path[..0] == [] && path[0..] == path;
    }
  }
}
