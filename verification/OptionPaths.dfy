/**
 Nested option dictionaries and the paths into them: reading, setting, creating and deleting with layer
 pruning (clients/desktop/config_manager.py, module functions).
 */
module OptionPaths {
  import opened Wrappers

  /** A value read from a JSON file. */
  datatype Node =
    | Dict(entries: Entries)
    | List(items: seq<Node>)
    | Str(text: string)
    | Num(value: int)
    | Bool(truth: bool)
    | Null

  type Entries = map<string, Node>

  datatype Failure = KeyError | TypeError | ValueError | IndexError

  const EMPTY: Node := Dict(map[])

  type Layers = seq<string>

  /** Neither path leads on from the other, nor are they the same. */
  predicate Apart(p: Layers, q: Layers) {
    !(p <= q) && !(q <= p)
  }

  // ------------------------------------------------------------- path text

  datatype KeyPath = Text(text: string) | Parts(parts: Layers)

  function Split(s: string): (parts: Layers)
    ensures |parts| > 0
  {
    if s == "" then [""]
    else
      var rest := Split(s[1..]);
      if s[0] == '/' then [""] + rest else [[s[0]] + rest[0]] + rest[1..]
  }

  /** The layers a key path names: of a non-empty text at most one slash is dropped at either end. */
  function Parse(p: KeyPath): Result<Layers, Failure> {
    match p
    case Parts(parts) => Ok(parts)
    case Text(text) =>
      if text == "" then Ok([])
      else
        var t := if text[0] == '/' then text[1..] else text;
        if t == "" then Err(IndexError)
        else Ok(Split(if t[|t| - 1] == '/' then t[..|t| - 1] else t))
  }

  function Join(parts: Layers): string {
    if parts == [] then ""
    else if |parts| == 1 then parts[0]
    else parts[0] + "/" + Join(parts[1..])
  }

  predicate NoSlash(s: string) {
    '/' !in s
  }

  lemma {:induction false} SplitPlain(s: string)
    requires NoSlash(s)
    ensures Split(s) == [s]
  {
    if s != "" {
      SplitPlain(s[1..]);
      assert s == [s[0]] + s[1..];
    }
  }

  lemma {:induction false} SplitFirst(s: string, rest: string)
    requires NoSlash(s)
    ensures Split(s + "/" + rest) == [s] + Split(rest)
  {
    var t := s + "/" + rest;
    if s == "" {
      assert t[1..] == rest;
    } else {
      assert t[1..] == s[1..] + "/" + rest;
      SplitFirst(s[1..], rest);
      assert s == [s[0]] + s[1..];
    }
  }

  /** A path text built from layer names gives those names back, with or without a slash at either end. */
  lemma {:induction false} SplitJoin(parts: Layers)
    requires parts != [] && forall p :: p in parts ==> NoSlash(p)
    ensures Split(Join(parts)) == parts
  {
    assert parts[0] in parts;
    if |parts| == 1 {
      SplitPlain(parts[0]);
    } else {
      forall p | p in parts[1..] ensures NoSlash(p) {
        assert p in parts;
      }
      SplitJoin(parts[1..]);
      SplitFirst(parts[0], Join(parts[1..]));
    }
  }

  lemma {:induction false} JoinEnds(parts: Layers)
    requires parts != [] && forall p :: p in parts ==> NoSlash(p) && p != ""
    ensures var t := Join(parts); t != "" && t[0] != '/' && t[|t| - 1] != '/'
  {
    assert parts[0] in parts;
    assert parts[0][0] in parts[0] && parts[0][|parts[0]| - 1] in parts[0];
    if |parts| > 1 {
      forall p | p in parts[1..] ensures NoSlash(p) && p != "" {
        assert p in parts;
      }
      JoinEnds(parts[1..]);
    }
  }

  lemma ParseJoin(parts: Layers, lead: bool, trail: bool)
    requires parts != [] && forall p :: p in parts ==> NoSlash(p) && p != ""
    ensures Parse(Text((if lead then "/" else "") + Join(parts) + (if trail then "/" else ""))) == Ok(parts)
  {
    var t := Join(parts);
    JoinEnds(parts);
    SplitJoin(parts);
    ParseTrimmed(t, lead, trail);
  }

  lemma ParseTrimmed(t: string, lead: bool, trail: bool)
    requires t != "" && t[0] != '/' && t[|t| - 1] != '/'
    ensures Parse(Text((if lead then "/" else "") + t + (if trail then "/" else ""))) == Ok(Split(t))
  {
    hide Split, Parse;
    var s := t + (if trail then "/" else "");
    var whole := (if lead then "/" else "") + s;
    assert s[0] == t[0];
    LeadIsTrimmed(s, lead);
    TrailIsTrimmed(t, trail);
    ParseOf(whole, s, t);
    assert whole == (if lead then "/" else "") + t + (if trail then "/" else "");
  }

  lemma ParseOf(whole: string, s: string, t: string)
    requires whole != "" && s == (if whole[0] == '/' then whole[1..] else whole)
    requires s != "" && t == (if s[|s| - 1] == '/' then s[..|s| - 1] else s)
    ensures Parse(Text(whole)) == Ok(Split(t))
  {
    hide Split;
  }

  lemma LeadIsTrimmed(s: string, lead: bool)
    requires s != "" && s[0] != '/'
    ensures var whole := (if lead then "/" else "") + s;
            whole != "" && (if whole[0] == '/' then whole[1..] else whole) == s
  {
  }

  lemma TrailIsTrimmed(t: string, trail: bool)
    requires t != "" && t[|t| - 1] != '/'
    ensures var s := t + (if trail then "/" else "");
            s != "" && (if s[|s| - 1] == '/' then s[..|s| - 1] else s) == t
  {
  }

  // --------------------------------------------------------------- reading

  predicate Contains(s: string, part: string) {
    exists i :: 0 <= i <= |s| && part <= s[i..]
  }

  /** What `layer in scope` does before the layer is entered: a string tests for a substring, a list for
      an element, and neither can then be indexed by a name. */
  function Enter(n: Node, layer: string): Result<Node, Failure> {
    match n
    case Dict(entries) => if layer in entries then Ok(entries[layer]) else Err(KeyError)
    case Str(text) => Err(if Contains(text, layer) then TypeError else KeyError)
    case List(items) => Err(if Str(layer) in items then TypeError else KeyError)
    case _ => Err(TypeError)
  }

  /** The node a path leads to.  Empty layers are skipped. */
  function Get(n: Node, path: Layers): Result<Node, Failure>
    decreases |path|
  {
    if path == [] then Ok(n)
    else if path[0] == "" then Get(n, path[1..])
    else
      match Enter(n, path[0])
      case Err(e) => Err(e)
      case Ok(child) => Get(child, path[1..])
  }

  // -------------------------------------------------------------- creating

  /** Entering a layer in create mode: a missing one springs up empty, and only dictionaries have layers. */
  function EnterOrCreate(n: Node, layer: string): Result<Node, Failure> {
    if !n.Dict? then Err(TypeError) else Ok(if layer in n.entries then n.entries[layer] else EMPTY)
  }

  function GetOrCreate(n: Node, path: Layers): Result<Node, Failure>
    decreases |path|
  {
    if path == [] then Ok(n)
    else if path[0] == "" then GetOrCreate(n, path[1..])
    else
      match EnterOrCreate(n, path[0])
      case Err(e) => Err(e)
      case Ok(child) => GetOrCreate(child, path[1..])
  }

  /** The tree after a read in create mode, whether or not the read succeeds. */
  function Grown(n: Node, path: Layers): Node
    decreases |path|
  {
    if path == [] then n
    else if path[0] == "" then Grown(n, path[1..])
    else if !n.Dict? then n
    else Dict(n.entries[path[0] := Grown(EnterOrCreate(n, path[0]).value, path[1..])])
  }

  /** The tree with the node at a path replaced. */
  function Put(n: Node, path: Layers, v: Node): Node
    requires Get(n, path).Ok?
    decreases |path|
  {
    if path == [] then v
    else if path[0] == "" then Put(n, path[1..], v)
    else Dict(n.entries[path[0] := Put(n.entries[path[0]], path[1..], v)])
  }

  /** The tree that setting leaves, or why it cannot be set. */
  function SetAt(n: Node, path: Layers, key: string, v: Node, create: bool): Result<Node, Failure> {
    var obj := if create then GetOrCreate(n, path) else Get(n, path);
    if obj.Err? then Err(obj.error)
    else if !obj.value.Dict? then Err(TypeError)
    else if !create && key !in obj.value.entries then Err(KeyError)
    else
      var grown := if create then Grown(n, path) else n;
      GrownHasPath(n, path, create);
      Ok(Put(grown, path, Dict(obj.value.entries[key := v])))
  }

  // -------------------------------------------------------------- deleting

  datatype Deletion = Deletion(tree: Node, outcome: Result<bool, Failure>)

  function DeleteAt(n: Node, path: Layers, key: string, prune: bool): Deletion {
    match Get(n, path)
    case Err(e) => Deletion(n, Err(e))
    case Ok(obj) =>
      if !obj.Dict? then Deletion(n, Err(TypeError))
      else if key !in obj.entries then Deletion(n, Ok(false))
      else
        var bare := Put(n, path, Dict(obj.entries - {key}));
        Deletion(if prune then Prune(bare, path).tree else bare, Ok(true))
  }

  /** A tree after pruning, and whether the walk upwards goes on from it. */
  datatype Pruning = Pruning(tree: Node, on: bool)

  /** Drops the empty layers at the end of a path.  An empty layer name ends the walk if what it stands for
      is empty, for there is nothing to delete under that name. */
  function Prune(n: Node, path: Layers): Pruning
    decreases |path|
  {
    if path == [] then Pruning(n, true)
    else if path[0] == "" then
      var p := Prune(n, path[1..]);
      Pruning(p.tree, p.on && p.tree != EMPTY)
    else if !n.Dict? || path[0] !in n.entries then Pruning(n, true)
    else
      var p := Prune(n.entries[path[0]], path[1..]);
      if p.on && p.tree == EMPTY then Pruning(Dict(n.entries - {path[0]}), true)
      else Pruning(Dict(n.entries[path[0] := p.tree]), p.on)
  }

  // --------------------------------------------------- facts about one tree

  /** After a successful read in create mode the path is there. */
  lemma {:induction false} GrownHasPath(n: Node, path: Layers, create: bool)
    ensures create && GetOrCreate(n, path).Ok? ==> Get(Grown(n, path), path) == GetOrCreate(n, path)
    decreases |path|
  {
    if path == [] {
    } else {
      if path[0] == "" {
        GrownHasPath(n, path[1..], create);
      } else if n.Dict? {
        GrownHasPath(EnterOrCreate(n, path[0]).value, path[1..], create);
      }
    }
  }

  /** A failed read in create mode has created nothing. */
  lemma {:induction false} FailedReadCreatesNothing(n: Node, path: Layers)
    requires GetOrCreate(n, path).Err?
    ensures Grown(n, path) == n
    decreases |path|
  {
    if path[0] == "" {
      FailedReadCreatesNothing(n, path[1..]);
    } else if n.Dict? {
      FailedReadCreatesNothing(EnterOrCreate(n, path[0]).value, path[1..]);
      FreshCannotFail(path[1..]);
    }
  }

  lemma {:induction false} FreshCannotFail(path: Layers)
    ensures GetOrCreate(EMPTY, path) == Ok(EMPTY)
    decreases |path|
  {
    if path == [] {
    } else {
      FreshCannotFail(path[1..]);
    }
  }

  /** A path that is there already stays as it is in create mode. */
  lemma {:induction false} PresentStays(n: Node, path: Layers)
    requires Get(n, path).Ok?
    ensures Grown(n, path) == n && GetOrCreate(n, path) == Get(n, path)
    decreases |path|
  {
    if path == [] {
    } else {
      if path[0] == "" {
        PresentStays(n, path[1..]);
      } else {
        PresentStays(n.entries[path[0]], path[1..]);
        assert n.entries[path[0] := n.entries[path[0]]] == n.entries;
      }
    }
  }
}
