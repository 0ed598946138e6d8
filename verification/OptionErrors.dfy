/**
 Which errors reading, setting and deleting options raise (clients/desktop/config_manager.py, module functions).
 */
module OptionErrors {
  import opened Wrappers
  import opened OptionPaths
  import opened OptionPathTheorems
  import opened OptionDicts

  /** Why a layer of this name cannot be entered: a text is searched for it, a list for an entry of it, and only a
      dictionary without it, or a text or list in which it is not found, gives a KeyError. */
  predicate Refuses(n: Node, layer: string, e: Failure) {
    match n
    case Dict(entries) => layer !in entries && e == KeyError
    case Str(text) => e == if exists i, j :: 0 <= i <= j <= |text| && text[i..j] == layer then TypeError else KeyError
    case List(items) => e == if Str(layer) in items then TypeError else KeyError
    case Num(_) => e == TypeError
    case Bool(_) => e == TypeError
    case Null => e == TypeError
  }

  lemma EnterFailsIff(n: Node, layer: string, e: Failure)
    ensures Enter(n, layer) == Err(e) <==> Refuses(n, layer, e)
  {
    if n.Str? {
      PartIff(n.text, layer);
    }
  }

  lemma PartIff(s: string, part: string)
    ensures Contains(s, part) <==> exists i, j :: 0 <= i <= j <= |s| && s[i..j] == part
  {
    if i :| 0 <= i <= |s| && part <= s[i..] {
      assert s[i..i + |part|] == s[i..][..|part|] == part;
    }
    if i, j :| 0 <= i <= j <= |s| && s[i..j] == part {
      assert s[i..j] == s[i..][..j - i];
    }
  }

  /** A read fails exactly at the first layer, empty names aside, that what was reached refuses. */
  lemma {:induction false} ReadFailsIff(n: Node, path: Layers, e: Failure)
    ensures Get(n, path) == Err(e) <==>
              exists i :: 0 <= i < |path| && Stops(n, path, i, e)
    decreases |path|
  {
    if path == [] {
    } else {
      assert Get(n, path[..0]) == Ok(n);
      EnterFailsIff(n, path[0], e);
      assert path[0] != "" && Refuses(n, path[0], e) ==> Stops(n, path, 0, e);
      if path[0] == "" || Enter(n, path[0]).Ok? {
        var child := if path[0] == "" then n else Enter(n, path[0]).value;
        ReadFailsIff(child, path[1..], e);
        forall i | 0 < i < |path| ensures Stops(n, path, i, e) <==> Stops(child, path[1..], i - 1, e) {
          assert path[..i][0] == path[0] && path[..i][1..] == path[1..][..i - 1];
        }
        if i :| 0 <= i < |path[1..]| && Stops(child, path[1..], i, e) {
          assert Stops(n, path, i + 1, e);
        }
      } else {
        forall i | 0 < i < |path| ensures !Stops(n, path, i, e) {
          assert path[..i][0] == path[0];
        }
      }
    }
  }

  predicate Stops(n: Node, path: Layers, i: nat, e: Failure)
    requires i < |path|
  {
    path[i] != "" && Get(n, path[..i]).Ok? && Refuses(Get(n, path[..i]).value, path[i], e)
  }

  /** In create mode the only error is a TypeError. */
  lemma {:induction false} CreateFailsWith(n: Node, path: Layers)
    ensures GetOrCreate(n, path).Err? ==> GetOrCreate(n, path).error == TypeError
    decreases |path|
  {
    if path == [] {
    } else if path[0] == "" {
      CreateFailsWith(n, path[1..]);
    } else if n.Dict? {
      CreateFailsWith(EnterOrCreate(n, path[0]).value, path[1..]);
    }
  }

  /** Setting fails with the error of the read, with a TypeError where no dictionary is reached, or without
      creating with a KeyError for a missing key; in create mode there are only TypeErrors. */
  lemma SetFailsIff(n: Node, path: Layers, key: string, v: Node, create: bool, e: Failure)
    ensures SetAt(n, path, key, v, create) == Err(e) <==>
              if create then e == TypeError && !(forall i :: 0 <= i <= |path| ==> NoLeafAt(n, path[..i]))
              else match Get(n, path)
                   case Err(f) => e == f
                   case Ok(obj) => if obj.Dict? then key !in obj.entries && e == KeyError else e == TypeError
  {
    if create {
      CreateSucceedsIff(n, path, key, v);
      CreateFailsWith(n, path);
    }
  }

  /** Deleting fails with the error of the read, or with a TypeError where no dictionary is reached; it answers
      whether the key was there; and unless it was, it changes nothing. */
  lemma DeleteAnswers(n: Node, path: Layers, key: string, prune: bool)
    ensures var d := DeleteAt(n, path, key, prune);
            && (match Get(n, path)
                case Err(f) => d.outcome == Err(f)
                case Ok(obj) => if obj.Dict? then d.outcome == Ok(key in obj.entries) else d.outcome == Err(TypeError))
            && (d.outcome != Ok(true) ==> d.tree == n)
  {
  }

  /** A text names no path only if it is a single slash; the empty text names the tree itself. */
  lemma TextNamesIff(text: string)
    ensures Parse(Text(text)).Err? <==> text == "/"
    ensures Parse(Text("/")) == Err(IndexError) && Parse(Text("")) == Ok([])
  {
  }

  /** A path without a last name can neither be set nor deleted. */
  lemma NoKeyNamed(n: Node, p: KeyPath, v: Node, create: bool, prune: bool)
    requires Parse(p).Ok? && (Parse(p).value == [] || Parse(p).value[|Parse(p).value| - 1] == "")
    ensures SetSpec(n, p, v, create) == Err(ValueError) && DeleteSpec(n, p, prune) == Deletion(n, Err(ValueError))
  {
  }
}
