/**
 Client options: defaults, overrides per server, and the view of the two together
 (clients/desktop/config_manager.py, get_client_options, set_client_option, clear_server_override).
 Writing the profile file is not part of this model.
 */
module ClientOptions {
  import opened Wrappers
  import opened OptionPaths
  import opened OptionPathTheorems
  import opened OptionMerge
  import opened OptionDicts

  type ServerId = string

  /** A loaded profile: the default options, and the overrides of each server. */
  datatype Profile = Profile(defaults: Entries, servers: map<ServerId, Entries>)

  /** Does this server id select overrides?  An empty one does not. */
  predicate Selects(p: Profile, server: Option<ServerId>) {
    server.Some? && server.value != "" && server.value in p.servers
  }

  function Overrides(p: Profile, server: Option<ServerId>): Entries {
    if server.Some? && server.value in p.servers then p.servers[server.value] else map[]
  }

  function EntriesOf(n: Node): Entries {
    if n.Dict? then n.entries else map[]
  }

  /** The options in force for a server. */
  function View(p: Profile, server: Option<ServerId>): Node {
    if Selects(p, server) then Merge(Dict(p.defaults), Dict(p.servers[server.value]), true) else Dict(p.defaults)
  }

  /** The profile after an option is set; or, when it cannot be set, the error.  A server without overrides
      is given an empty set of them either way. */
  datatype Change = Change(profile: Profile, outcome: Result<bool, Failure>)

  function SetOption(p: Profile, path: KeyPath, v: Node, server: Option<ServerId>, create: bool): Change {
    match server
    case None =>
      (match SetSpec(Dict(p.defaults), path, v, create)
       case Err(e) => Change(p, Err(e))
       case Ok(tree) => Change(p.(defaults := EntriesOf(tree)), Ok(true)))
    case Some(sid) =>
      var target := Overrides(p, server);
      (match SetSpec(Dict(target), path, v, create)
       case Err(e) => Change(p.(servers := p.servers[sid := target]), Err(e))
       case Ok(tree) => Change(p.(servers := p.servers[sid := EntriesOf(tree)]), Ok(true)))
  }

  function ClearOverride(p: Profile, sid: ServerId, path: KeyPath, prune: bool): Change {
    if sid !in p.servers then Change(p, Ok(false))
    else
      var d := DeleteSpec(Dict(p.servers[sid]), path, prune);
      Change(p.(servers := p.servers[sid := EntriesOf(d.tree)]), d.outcome)
  }

  // ------------------------------------------------------------- the trees

  /** Setting and deleting leave a dictionary a dictionary. */
  lemma SetKeepsDict(n: Node, path: Layers, key: string, v: Node, create: bool)
    requires n.Dict? && SetAt(n, path, key, v, create).Ok?
    ensures SetAt(n, path, key, v, create).value.Dict?
  {
    GrownKeepsDict(n, path);
    GrownHasPath(n, path, create);
    var obj := if create then GetOrCreate(n, path) else Get(n, path);
    PutKeepsDict(if create then Grown(n, path) else n, path, Dict(obj.value.entries[key := v]));
  }

  lemma {:induction false} GrownKeepsDict(n: Node, path: Layers)
    requires n.Dict?
    ensures Grown(n, path).Dict?
    decreases |path|
  {
    if path != [] && path[0] == "" {
      GrownKeepsDict(n, path[1..]);
    }
  }

  lemma {:induction false} PutKeepsDict(n: Node, path: Layers, v: Node)
    requires n.Dict? && Get(n, path).Ok? && v.Dict?
    ensures Put(n, path, v).Dict?
    decreases |path|
  {
    if path != [] && path[0] == "" {
      PutKeepsDict(n, path[1..], v);
    }
  }

  lemma {:induction false} PruneKeepsDict(n: Node, path: Layers)
    requires n.Dict?
    ensures Prune(n, path).tree.Dict?
    decreases |path|
  {
    if path != [] && path[0] == "" {
      PruneKeepsDict(n, path[1..]);
    }
  }

  lemma SetSpecKeepsDict(n: Node, p: KeyPath, v: Node, create: bool)
    requires n.Dict? && SetSpec(n, p, v, create).Ok?
    ensures SetSpec(n, p, v, create).value.Dict?
  {
    var layers := Parse(p).value;
    SetKeepsDict(n, layers[..|layers| - 1], layers[|layers| - 1], v, create);
  }

  lemma DeleteKeepsDict(n: Node, p: KeyPath, prune: bool)
    requires n.Dict?
    ensures DeleteSpec(n, p, prune).tree.Dict?
  {
    if DeleteSpec(n, p, prune).outcome == Ok(true) {
      var layers := Parse(p).value;
      var path, key := layers[..|layers| - 1], layers[|layers| - 1];
      PutKeepsDict(n, path, Dict(Get(n, path).value.entries - {key}));
      PruneKeepsDict(Bare(n, path, key), path);
    }
  }

  // ----------------------------------------------------------- what is seen

  /** The layer names a key path leads through. */
  function Target(p: KeyPath): Layers {
    if Parse(p).Ok? then Names(Parse(p).value) else []
  }

  lemma TargetSplits(p: KeyPath)
    requires Parse(p).Ok? && Parse(p).value != [] && Parse(p).value[|Parse(p).value| - 1] != ""
    ensures var layers := Parse(p).value;
            Target(p) == Names(layers[..|layers| - 1]) + [layers[|layers| - 1]] && "" !in Target(p)
  {
    var layers := Parse(p).value;
    assert layers == layers[..|layers| - 1] + [layers[|layers| - 1]];
    NamesAppend(layers[..|layers| - 1], [layers[|layers| - 1]]);
    NoEmptyNames(layers);
  }

  lemma {:induction false} SetIsSeen(n: Node, path: Layers, key: string, v: Node, create: bool)
    requires key != "" && SetAt(n, path, key, v, create).Ok?
    ensures See(SetAt(n, path, key, v, create).value, Names(path) + [key]) == Here(v)
    decreases |path|
  {
    if path == [] {
    } else {
      if path[0] == "" {
        assert Names(path) == Names(path[1..]);
        SetIsSeen(n, path[1..], key, v, create);
      } else {
        SetStep(n, path, key, v, create);
        SetIsSeen(EnterOrCreate(n, path[0]).value, path[1..], key, v, create);
        assert (Names(path) + [key])[1..] == Names(path[1..]) + [key];
      }
    }
  }

  lemma {:induction false} DeletedIsUnseen(n: Node, path: Layers, key: string, prune: bool)
    requires key != "" && Get(n, path).Ok? && Get(n, path).value.Dict?
    ensures See(Deleted(n, path, key, prune), Names(path) + [key]) == Missing
    decreases |path|
  {
    if path == [] {
    } else {
      DeletedIsUnseen(if path[0] == "" then n else n.entries[path[0]], path[1..], key, prune);
      assert Names(path) == (if path[0] == "" then [] else [path[0]]) + Names(path[1..]);
      assert path[0] == "" ==> Names(path) == Names(path[1..]);
      assert path[0] != "" ==> (Names(path) + [key])[1..] == Names(path[1..]) + [key];
    }
  }

  lemma {:induction false} SetLeavesSight(n: Node, path: Layers, key: string, v: Node, create: bool, q: Layers)
    requires key != "" && SetAt(n, path, key, v, create).Ok?
    requires !(Names(path) + [key] <= q) && !(q <= Names(path) + [key])
    ensures See(SetAt(n, path, key, v, create).value, q) == See(n, q)
    decreases |path|
  {
    if path == [] {
      assert q[0] == key ==> [key] <= q;
    } else if path[0] == "" {
      SetLeavesSight(n, path[1..], key, v, create, q);
    } else {
      SetStep(n, path, key, v, create);
      if q[0] == path[0] {
        ShorterUnrelated(path[0], Names(path[1..]) + [key], q);
        SetLeavesSight(EnterOrCreate(n, path[0]).value, path[1..], key, v, create, q[1..]);
      }
    }
  }

  lemma {:induction false} DeletedLeavesSight(n: Node, path: Layers, key: string, prune: bool, q: Layers)
    requires key != "" && Get(n, path).Ok? && Get(n, path).value.Dict?
    requires !(Names(path) + [key] <= q) && !(q <= Names(path) + [key])
    ensures See(Deleted(n, path, key, prune), q) == See(n, q)
    decreases |path|
  {
    if path == [] {
      assert q[0] == key ==> [key] <= q;
    } else if path[0] == "" {
      DeletedLeavesSight(n, path[1..], key, prune, q);
    } else if q[0] == path[0] {
      ShorterUnrelated(path[0], Names(path[1..]) + [key], q);
      DeletedLeavesSight(n.entries[path[0]], path[1..], key, prune, q[1..]);
    }
  }

  /** What setting by key path makes of each sight of the tree. */
  lemma SetSights(n: Node, p: KeyPath, v: Node, create: bool, q: Layers)
    requires n.Dict? && SetSpec(n, p, v, create).Ok?
    ensures SetSpec(n, p, v, create).value.Dict? && Target(p) != []
    ensures See(SetSpec(n, p, v, create).value, Target(p)) == Here(v)
    ensures Apart(Target(p), q) ==> See(SetSpec(n, p, v, create).value, q) == See(n, q)
  {
    var layers := Parse(p).value;
    TargetSplits(p);
    SetSpecKeepsDict(n, p, v, create);
    SetIsSeen(n, layers[..|layers| - 1], layers[|layers| - 1], v, create);
    if Apart(Target(p), q) {
      SetLeavesSight(n, layers[..|layers| - 1], layers[|layers| - 1], v, create, q);
    }
  }

  lemma DeleteSights(n: Node, p: KeyPath, prune: bool, q: Layers)
    requires n.Dict? && DeleteSpec(n, p, prune).outcome == Ok(true)
    ensures DeleteSpec(n, p, prune).tree.Dict? && Target(p) != []
    ensures See(DeleteSpec(n, p, prune).tree, Target(p)) == Missing
    ensures Apart(Target(p), q) ==> See(DeleteSpec(n, p, prune).tree, q) == See(n, q)
  {
    var layers := Parse(p).value;
    TargetSplits(p);
    DeleteKeepsDict(n, p, prune);
    DeletedIsUnseen(n, layers[..|layers| - 1], layers[|layers| - 1], prune);
    if Apart(Target(p), q) {
      DeletedLeavesSight(n, layers[..|layers| - 1], layers[|layers| - 1], prune, q);
    }
  }

  /** The view at a path, from the defaults and the overrides there. */
  lemma ViewIsPointwise(p: Profile, sid: ServerId, names: Layers)
    requires sid != "" && (sid in p.servers || names != [])
    ensures var s := See(View(p, Some(sid)), names);
            var c := Combined(See(Dict(p.defaults), names), See(Dict(Overrides(p, Some(sid))), names));
            (s.Here? <==> c.Here?) && (s.Here? ==> s == c)
  {
    if sid in p.servers {
      MergeIsPointwise(Dict(p.defaults), Dict(p.servers[sid]), names);
    }
  }

  // ------------------------------------------------------------ main results

  /** A server's option that was set shows in its view: exactly the value, unless the value is a dictionary
      over a default that is one too.  For the empty server id, which a view ignores, it shows only if the
      default is the same already. */
  lemma SetShowsIff(p: Profile, path: KeyPath, v: Node, sid: ServerId, create: bool)
    requires SetOption(p, path, v, Some(sid), create).outcome.Ok? && !v.Dict?
    ensures var after := SetOption(p, path, v, Some(sid), create).profile;
            See(View(after, Some(sid)), Target(path)) == Here(v)
            <==> sid != "" || See(Dict(p.defaults), Target(path)) == Here(v)
  {
    hide SetSpec, Target, See, Merge;
    SetSights(Dict(Overrides(p, Some(sid))), path, v, create, []);
    if sid != "" {
      ViewIsPointwise(SetOption(p, path, v, Some(sid), create).profile, sid, Target(path));
    }
  }

  /** An override that was cleared gives way to the default, of whatever kind; and where there is no default
      nothing is left. */
  lemma ClearRestoresDefault(p: Profile, path: KeyPath, sid: ServerId, prune: bool)
    requires ClearOverride(p, sid, path, prune).outcome == Ok(true) && sid != ""
    ensures var s := See(View(ClearOverride(p, sid, path, prune).profile, Some(sid)), Target(path));
            var d := See(Dict(p.defaults), Target(path));
            (s.Here? <==> d.Here?) && (s.Here? ==> s == d)
  {
    hide DeleteSpec, Target, See, Merge, View;
    DeleteSights(Dict(p.servers[sid]), path, prune, []);
    ViewIsPointwise(ClearOverride(p, sid, path, prune).profile, sid, Target(path));
  }

  /** Setting an override changes no other option of that server's view. */
  lemma SetLeavesOtherOptions(p: Profile, path: KeyPath, v: Node, sid: ServerId, create: bool, q: Layers)
    requires SetOption(p, path, v, Some(sid), create).outcome.Ok? && Apart(Target(path), q)
    ensures var s, s' := See(View(p, Some(sid)), q),
                         See(View(SetOption(p, path, v, Some(sid), create).profile, Some(sid)), q);
            (s'.Here? <==> s.Here?) && (s.Here? ==> s' == s)
  {
    hide SetSpec, Target, See, Merge;
    SetSights(Dict(Overrides(p, Some(sid))), path, v, create, q);
    if sid != "" {
      ViewIsPointwise(p, sid, q);
      ViewIsPointwise(SetOption(p, path, v, Some(sid), create).profile, sid, q);
    }
  }

  /** Clearing an override, pruning or not, changes no other option of that server's view. */
  lemma ClearLeavesOtherOptions(p: Profile, path: KeyPath, sid: ServerId, prune: bool, q: Layers)
    requires Apart(Target(path), q)
    ensures var s, s' := See(View(p, Some(sid)), q),
                         See(View(ClearOverride(p, sid, path, prune).profile, Some(sid)), q);
            (s'.Here? <==> s.Here?) && (s.Here? ==> s' == s)
  {
    hide DeleteSpec, Target, See, Merge;
    if ClearOverride(p, sid, path, prune).outcome != Ok(true) {
      ClearRefusedChangesNothing(p, path, sid, prune);
    } else {
      DeleteSights(Dict(p.servers[sid]), path, prune, q);
      if sid != "" {
        ViewIsPointwise(p, sid, q);
        ViewIsPointwise(ClearOverride(p, sid, path, prune).profile, sid, q);
      }
    }
  }

  lemma ClearRefusedChangesNothing(p: Profile, path: KeyPath, sid: ServerId, prune: bool)
    requires ClearOverride(p, sid, path, prune).outcome != Ok(true)
    ensures ClearOverride(p, sid, path, prune).profile == p
  {
    if sid in p.servers {
      assert p.servers[sid := p.servers[sid]] == p.servers;
    }
  }

  /** A set that fails shows in no view, although it may leave an empty set of overrides behind. */
  lemma FailedSetIsInvisible(p: Profile, path: KeyPath, v: Node, server: Option<ServerId>, create: bool,
                             viewer: Option<ServerId>)
    requires SetOption(p, path, v, server, create).outcome.Err?
    ensures View(SetOption(p, path, v, server, create).profile, viewer) == View(p, viewer)
  {
    assert Merge(Dict(p.defaults), EMPTY, true).entries == p.defaults;
  }

  /** Creating an override where there was none and clearing it again restores the server's overrides exactly
      when the tree can be restored. */
  lemma CreateThenClear(p: Profile, path: KeyPath, v: Node, sid: ServerId)
    requires SetOption(p, path, v, Some(sid), true).outcome.Ok?
    requires var layers := Parse(path).value;
             layers != [] && Absent(Dict(Overrides(p, Some(sid))), layers[..|layers| - 1], layers[|layers| - 1])
    ensures var created := SetOption(p, path, v, Some(sid), true).profile;
            var cleared := ClearOverride(created, sid, path, true);
            var layers := Parse(path).value;
            && cleared.outcome == Ok(true)
            && (cleared.profile == p.(servers := p.servers[sid := Overrides(p, Some(sid))])
                <==> Restorable(Dict(Overrides(p, Some(sid))), layers[..|layers| - 1]))
  {
    var target := Dict(Overrides(p, Some(sid)));
    var layers := Parse(path).value;
    var created := SetOption(p, path, v, Some(sid), true).profile;
    SetSpecKeepsDict(target, path, v, true);
    CreateThenDelete(target, layers[..|layers| - 1], layers[|layers| - 1], v);
    DeleteKeepsDict(Dict(created.servers[sid]), path, true);
    var cleared := ClearOverride(created, sid, path, true);
    var wanted := p.servers[sid := target.entries];
    assert cleared.profile.servers[sid] == wanted[sid] <==> cleared.profile.servers == wanted;
  }

  /** The whole profile is as before exactly if besides the server had an entry for its overrides: an empty one
      made for it stays. */
  lemma CreateThenClearRestoresIff(p: Profile, path: KeyPath, v: Node, sid: ServerId)
    requires SetOption(p, path, v, Some(sid), true).outcome.Ok?
    requires var layers := Parse(path).value;
             layers != [] && Absent(Dict(Overrides(p, Some(sid))), layers[..|layers| - 1], layers[|layers| - 1])
    ensures var created := SetOption(p, path, v, Some(sid), true).profile;
            var layers := Parse(path).value;
            ClearOverride(created, sid, path, true).profile == p
            <==> sid in p.servers && Restorable(Dict(p.servers[sid]), layers[..|layers| - 1])
  {
    hide Restorable, Absent, SetSpec, DeleteSpec;
    CreateThenClear(p, path, v, sid);
    var created := SetOption(p, path, v, Some(sid), true).profile;
    assert sid in ClearOverride(created, sid, path, true).profile.servers;
    assert sid in p.servers ==> p.servers[sid := p.servers[sid]] == p.servers;
  }

  /** Setting a default shows under its path in the defaults, leaves every unrelated default and all overrides
      alone, and when it fails changes nothing. */
  lemma SetDefaultShows(p: Profile, path: KeyPath, v: Node, create: bool, q: Layers)
    ensures var c := SetOption(p, path, v, None, create);
            && c.profile.servers == p.servers
            && (c.outcome.Err? ==> c.profile == p && SetSpec(Dict(p.defaults), path, v, create) == Err(c.outcome.error))
            && (c.outcome.Ok? ==>
                  && c.outcome == Ok(true) && See(Dict(c.profile.defaults), Target(path)) == Here(v)
                  && (Apart(Target(path), q) ==> See(Dict(c.profile.defaults), q) == See(Dict(p.defaults), q)))
  {
    hide SetSpec, See, Target;
    if SetSpec(Dict(p.defaults), path, v, create).Ok? {
      SetSights(Dict(p.defaults), path, v, create, q);
    }
  }

  /** Setting for a server concerns that server's overrides only, an empty set of which is made first if there is
      none and stays even when setting fails. */
  lemma SetConcernsServer(p: Profile, path: KeyPath, v: Node, sid: ServerId, create: bool, other: ServerId)
    ensures var c := SetOption(p, path, v, Some(sid), create);
            && c.profile.defaults == p.defaults && sid in c.profile.servers
            && (c.outcome.Err? ==> SetSpec(Dict(Overrides(p, Some(sid))), path, v, create) == Err(c.outcome.error)
                                   && c.profile.servers[sid] == if sid in p.servers then p.servers[sid] else map[])
            && (c.outcome.Ok? ==> c.outcome == Ok(true) && See(Dict(c.profile.servers[sid]), Target(path)) == Here(v))
            && (other != sid ==>
                  (other in c.profile.servers <==> other in p.servers)
                  && (other in p.servers ==> c.profile.servers[other] == p.servers[other]))
  {
    hide SetSpec, See, Target;
    if SetSpec(Dict(Overrides(p, Some(sid))), path, v, create).Ok? {
      SetSights(Dict(Overrides(p, Some(sid))), path, v, create, []);
    }
  }

  /** Clearing answers whether there was something to clear or why it cannot be cleared, and concerns that
      server's overrides only. */
  lemma ClearConcernsServer(p: Profile, path: KeyPath, sid: ServerId, prune: bool, other: ServerId)
    ensures var c := ClearOverride(p, sid, path, prune);
            && c.profile.defaults == p.defaults
            && (sid !in p.servers ==> c == Change(p, Ok(false)))
            && (sid in p.servers ==> c.outcome == DeleteSpec(Dict(p.servers[sid]), path, prune).outcome
                                     && sid in c.profile.servers)
            && (c.outcome != Ok(true) ==> c.profile == p)
            && (other != sid ==>
                  (other in c.profile.servers <==> other in p.servers)
                  && (other in p.servers ==> c.profile.servers[other] == p.servers[other]))
  {
    if ClearOverride(p, sid, path, prune).outcome != Ok(true) {
      ClearRefusedChangesNothing(p, path, sid, prune);
    }
  }

  // ------------------------------------------------------------ the manager

  class ConfigManager {
    var defaults: Entries
    var servers: map<ServerId, Entries>

    function Current(): Profile
      reads this
    {
      Profile(defaults, servers)
    }

    constructor (p: Profile)
      ensures Current() == p
    {
      defaults, servers := p.defaults, p.servers;
    }

    method GetClientOptions(server: Option<ServerId>) returns (options: Entries)
      ensures Dict(options) == View(Current(), server)
    {
      options := CopyEntries(defaults);
      CopyEntriesIsSame(defaults);
      if server.Some? && server.value != "" && server.value in servers {
        options := DeepMerge(options, servers[server.value], true);
      }
    }

    method SetClientOption(path: KeyPath, value: Node, server: Option<ServerId>, create: bool)
      returns (outcome: Result<bool, Failure>)
      modifies this
      ensures Change(Current(), outcome) == SetOption(old(Current()), path, value, server, create)
    {
      hide SetSpec;
      if server.None? {
        var target := new OptionDict(defaults);
        outcome := target.SetItem(path, value, create);
        if outcome.Ok? {
          SetSpecKeepsDict(Dict(defaults), path, value, create);
          defaults := target.root.entries;
        }
      } else {
        outcome := SetOverride(server.value, path, value, create);
      }
    }

    method SetOverride(sid: ServerId, path: KeyPath, value: Node, create: bool) returns (outcome: Result<bool, Failure>)
      modifies this`servers
      ensures Change(Current(), outcome) == SetOption(old(Current()), path, value, Some(sid), create)
    {
      hide SetSpec;
      ghost var target0 := Overrides(Current(), Some(sid));
      if sid !in servers {
        servers := servers[sid := map[]];
      }
      assert servers == old(servers)[sid := target0];
      var target := new OptionDict(servers[sid]);
      outcome := target.SetItem(path, value, create);
      if outcome.Ok? {
        SetSpecKeepsDict(Dict(servers[sid]), path, value, create);
        servers := servers[sid := target.root.entries];
        assert servers == old(servers)[sid := target.root.entries];
      }
    }

    method ClearServerOverride(sid: ServerId, path: KeyPath, prune: bool) returns (outcome: Result<bool, Failure>)
      modifies this
      ensures Change(Current(), outcome) == ClearOverride(old(Current()), sid, path, prune)
    {
      hide DeleteSpec;
      if sid !in servers {
        return Ok(false);
      }
      DeleteKeepsDict(Dict(servers[sid]), path, prune);
      var overrides := new OptionDict(servers[sid]);
      outcome := overrides.DeleteItem(path, prune);
      servers := servers[sid := overrides.root.entries];
    }
  }
}
