/** Which settings files are enrolled, and the walk that has to find every one of them. */
module SettingsScope {

  type Segments = seq<string>

  datatype SettingsSyncPolicy = SettingsSyncPolicy(enabled: bool, appearance: bool, core: bool, communityPlugins: bool)

  datatype Category = Appearance | Core | CommunityPlugins | NoCategory

  datatype Admission = Text | Blob | Excluded | Unsupported

  const INLINE_TEXT_LIMIT_BYTES := 1_000_000
  const BLOB_LIMIT_BYTES := 25_000_000

  /** The path rules of the host: which paths are valid, the lowercased identity of one segment, and the
      content kind of a path outside the settings directory. */
  datatype PathRules = PathRules(
    valid: Segments -> bool, lower: string -> string, isText: Segments -> bool, isAttachment: Segments -> bool)

  /** Validity is closed under taking ancestors, and the directory names used here are their own identities. */
  ghost predicate Lawful(rules: PathRules) {
    && (forall path: Segments, k: nat :: rules.valid(path) && 0 < k <= |path| ==> rules.valid(path[..k]))
    && rules.lower(".obsidian") == ".obsidian"
    && rules.lower("themes") == "themes" && rules.lower("snippets") == "snippets" && rules.lower("plugins") == "plugins"
  }

  function Key(rules: PathRules, path: Segments): (r: Segments)
    ensures |r| == |path|
  {
    seq(|path|, i requires 0 <= i < |path| => rules.lower(path[i]))
  }

  predicate EndsWith(s: string, suffix: string) {
    |s| >= |suffix| && s[|s| - |suffix|..] == suffix
  }

  function Relative(path: Segments): Segments {
    if path == [] then [] else path[1..]
  }

  function First(path: Segments): string {
    if path == [] then "" else path[0]
  }

  /** Which category a settings path falls into, by its shape alone. */
  function SettingsCategory(path: Segments): Category {
    var relative := Relative(path);
    if |relative| == 1 && relative[0] in ["appearance.json", "app.json", "core-plugins.json", "hotkeys.json", "types.json",
                                          "community-plugins.json"] then
      if relative[0] == "appearance.json" then Appearance
      else if relative[0] == "community-plugins.json" then CommunityPlugins else Core
    else if First(relative) == "themes" || First(relative) == "snippets" then
      if |relative| > 1 then Appearance else NoCategory
    else if First(relative) == "plugins" && |relative| == 3
            && relative[2] in ["manifest.json", "main.js", "styles.css", "data.json"] then CommunityPlugins
    else NoCategory
  }

  predicate Selected(policy: SettingsSyncPolicy, category: Category) {
    match category
    case Appearance => policy.appearance
    case Core => policy.core
    case CommunityPlugins => policy.communityPlugins
    case NoCategory => false
  }

  /** Workspace, graph, cache, own-plugin and dependency trees stay outside every category. */
  predicate IsHardExcluded(path: Segments) {
    var relative := Relative(path);
    var first := First(relative);
    || ("workspace" <= first && EndsWith(first, ".json") && |first| >= 14)
    || first == "graph.json"
    || "cache" <= first
    || (first == "plugins" && |relative| > 1 && relative[1] == "ai-bridge")
    || "node_modules" in relative
  }

  function ClassifyEnrollmentPath(rules: PathRules, path: Segments, size: int, policy: SettingsSyncPolicy): Admission {
    if !rules.valid(path) || size < 0 || path == [] then Excluded
    else if path[0] == ".trash" || path[0] == ".ai-bridge" || path[|path| - 1] == ".DS_Store"
            || EndsWith(rules.lower(path[|path| - 1]), ".icloud") then Excluded
    else if path[0] == ".obsidian" then
      if IsHardExcluded(Key(rules, path)) then Excluded
      else if !policy.enabled || !Selected(policy, SettingsCategory(path)) then Excluded
      else if size > BLOB_LIMIT_BYTES then Unsupported else Blob
    else if rules.isText(path) then
      if size > BLOB_LIMIT_BYTES then Unsupported else if size <= INLINE_TEXT_LIMIT_BYTES then Text else Blob
    else if !rules.isAttachment(path) then Excluded
    else if size > BLOB_LIMIT_BYTES then Unsupported else Blob
  }

  /** A settings path the policy admits, whatever its size. */
  predicate IsSettingsPath(rules: PathRules, path: Segments, policy: SettingsSyncPolicy) {
    ClassifyEnrollmentPath(rules, path, 0, policy) == Blob
  }

  /** Whether the walk descends into a directory: some admitted path may lie below it. */
  predicate ShouldTraverse(rules: PathRules, path: Segments, policy: SettingsSyncPolicy) {
    policy.enabled && rules.valid(path) && path != []
    && var key := Key(rules, path);
       && key[0] == ".obsidian" && !IsHardExcluded(key)
       && (|key| == 1
           || (if key[1] == "themes" || key[1] == "snippets" then policy.appearance
               else policy.communityPlugins && key[1] == "plugins" && |key| <= 3))
  }

  /** Every directory above an admitted settings path is traversed, at every depth and under every policy. */
  lemma AncestorsAreTraversed(rules: PathRules, path: Segments, policy: SettingsSyncPolicy, k: nat)
    requires Lawful(rules) && IsSettingsPath(rules, path, policy) && path[0] == ".obsidian" && 0 < k < |path|
    ensures ShouldTraverse(rules, path[..k], policy)
  {
    var key, above := Key(rules, path), Key(rules, path[..k]);
    assert above == key[..k];
    AncestorIsNotExcluded(key, k);
    assert rules.valid(path[..k]);
    if k > 1 {
      DeepCategory(path);
    }
  }

  /** A path nothing excludes has no excluded ancestor. */
  lemma AncestorIsNotExcluded(key: Segments, k: nat)
    requires !IsHardExcluded(key) && 0 < k <= |key|
    ensures !IsHardExcluded(key[..k])
  {
    var relative, above := Relative(key), Relative(key[..k]);
    assert above == relative[..k - 1];
    assert forall segment | segment in above :: segment in relative;
  }

  /** Below the settings directory itself, only themes, snippets and plugin files have a category. */
  lemma DeepCategory(path: Segments)
    requires |path| > 2 && SettingsCategory(path) != NoCategory
    ensures path[1] == "themes" || path[1] == "snippets" || (path[1] == "plugins" && |path| == 4)
    ensures path[1] == "plugins" ==> SettingsCategory(path) == CommunityPlugins
    ensures path[1] == "themes" || path[1] == "snippets" ==> SettingsCategory(path) == Appearance
  {
    assert Relative(path)[0] == path[1] && |Relative(path)| == |path| - 1;
    assert "plugins" != "themes" && "plugins" != "snippets" by {
      assert |"plugins"| != |"themes"| && |"plugins"| != |"snippets"|;
    }
  }

  // ---- The walk ----

  /** A directory: its files, and its folders by name. */
  datatype Tree = Tree(files: seq<string>, folders: seq<Folder>)
  datatype Folder = Folder(name: string, tree: Tree)

  /** A directory waiting on the worklist, with its path. */
  datatype Visit = Visit(at: Segments, tree: Tree)

  /** The file exists below this directory. */
  ghost predicate FileAt(tree: Tree, rest: Segments)
    decreases |rest|
  {
    if |rest| == 0 then false
    else if |rest| == 1 then rest[0] in tree.files
    else exists folder | folder in tree.folders :: folder.name == rest[0] && FileAt(folder.tree, rest[1..])
  }

  /** The file is listed by a walk of this directory: valid, and below traversed folders only. */
  ghost predicate Reached(rules: PathRules, policy: SettingsSyncPolicy, visit: Visit, path: Segments)
    decreases |path| - |visit.at|
  {
    && |visit.at| < |path|
    && path[..|visit.at|] == visit.at
    && (if |visit.at| + 1 == |path| then path[|visit.at|] in visit.tree.files && rules.valid(path)
        else exists folder | folder in visit.tree.folders ::
               && folder.name == path[|visit.at|]
               && ShouldTraverse(rules, visit.at + [folder.name], policy)
               && Reached(rules, policy, Visit(visit.at + [folder.name], folder.tree), path))
  }

  function Weight(visits: seq<Visit>): nat {
    if visits == [] then 0 else Weight(visits[..|visits| - 1]) + Size(visits[|visits| - 1].tree)
  }

  function Size(tree: Tree): nat {
    1 + Sizes(tree.folders)
  }

  function Sizes(folders: seq<Folder>): nat {
    if folders == [] then 0 else Size(folders[0].tree) + Sizes(folders[1..])
  }

  function FilesHere(rules: PathRules, visit: Visit, from: nat): seq<Segments>
    requires from <= |visit.tree.files|
    decreases |visit.tree.files| - from
  {
    if from == |visit.tree.files| then []
    else
      var path := visit.at + [visit.tree.files[from]];
      (if rules.valid(path) then [path] else []) + FilesHere(rules, visit, from + 1)
  }

  function FoldersHere(rules: PathRules, policy: SettingsSyncPolicy, at: Segments, folders: seq<Folder>): seq<Visit> {
    if folders == [] then []
    else
      var below := at + [folders[0].name];
      (if ShouldTraverse(rules, below, policy) then [Visit(below, folders[0].tree)] else [])
      + FoldersHere(rules, policy, at, folders[1..])
  }

  lemma {:induction false} FilesHereAre(rules: PathRules, visit: Visit, from: nat, path: Segments)
    requires from <= |visit.tree.files|
    ensures path in FilesHere(rules, visit, from) <==>
      rules.valid(path) && exists i :: from <= i < |visit.tree.files| && path == visit.at + [visit.tree.files[i]]
    decreases |visit.tree.files| - from
  {
    if from < |visit.tree.files| {
      FilesHereAre(rules, visit, from + 1, path);
    }
  }

  lemma {:induction false} FoldersHereAre(rules: PathRules, policy: SettingsSyncPolicy, at: Segments, folders: seq<Folder>, visit: Visit)
    ensures visit in FoldersHere(rules, policy, at, folders) <==>
      exists folder | folder in folders ::
        visit == Visit(at + [folder.name], folder.tree) && ShouldTraverse(rules, at + [folder.name], policy)
  {
    if folders != [] {
      hide ShouldTraverse;
      FoldersHereAre(rules, policy, at, folders[1..], visit);
      assert folders == [folders[0]] + folders[1..];
    }
  }

  /** One visit finds its own files and passes the rest on to its traversed folders. */
  lemma VisitSplits(rules: PathRules, policy: SettingsSyncPolicy, visit: Visit, path: Segments)
    ensures Reached(rules, policy, visit, path) <==>
      || path in FilesHere(rules, visit, 0)
      || exists below | below in FoldersHere(rules, policy, visit.at, visit.tree.folders) :: Reached(rules, policy, below, path)
  {
    hide ShouldTraverse;
    FilesHereAre(rules, visit, 0, path);
    forall below
      ensures below in FoldersHere(rules, policy, visit.at, visit.tree.folders) <==>
        exists folder | folder in visit.tree.folders ::
          below == Visit(visit.at + [folder.name], folder.tree) && ShouldTraverse(rules, visit.at + [folder.name], policy)
    {
      FoldersHereAre(rules, policy, visit.at, visit.tree.folders, below);
    }
    if path in FilesHere(rules, visit, 0) {
      assert path[..|visit.at|] == visit.at;
    }
    if Reached(rules, policy, visit, path) {
      if |path| == |visit.at| + 1 {
        assert path == visit.at + [path[|visit.at|]];
      } else {
        var folder :| folder in visit.tree.folders
          && folder.name == path[|visit.at|]
          && ShouldTraverse(rules, visit.at + [folder.name], policy)
          && Reached(rules, policy, Visit(visit.at + [folder.name], folder.tree), path);
        assert Visit(visit.at + [folder.name], folder.tree) in FoldersHere(rules, policy, visit.at, visit.tree.folders);
      }
    }
    forall below | below in FoldersHere(rules, policy, visit.at, visit.tree.folders) && Reached(rules, policy, below, path)
      ensures Reached(rules, policy, visit, path)
    {
      BelowIsReached(rules, policy, visit, below, path);
    }
  }

  lemma BelowIsReached(rules: PathRules, policy: SettingsSyncPolicy, visit: Visit, below: Visit, path: Segments)
    requires exists folder | folder in visit.tree.folders ::
      below == Visit(visit.at + [folder.name], folder.tree) && ShouldTraverse(rules, visit.at + [folder.name], policy)
    requires Reached(rules, policy, below, path)
    ensures Reached(rules, policy, visit, path)
  {
    hide ShouldTraverse;
    assert path[..|visit.at|] == path[..|below.at|][..|visit.at|];
    assert path[|visit.at|] == path[..|below.at|][|visit.at|];
  }

  lemma {:induction false} WeightGrows(visits: seq<Visit>, more: seq<Visit>)
    ensures Weight(visits + more) == Weight(visits) + Weight(more)
  {
    if more == [] {
      assert visits + more == visits;
    } else {
      assert (visits + more)[..|visits + more| - 1] == visits + more[..|more| - 1];
      WeightGrows(visits, more[..|more| - 1]);
    }
  }

  lemma {:induction false} FoldersWeighLess(rules: PathRules, policy: SettingsSyncPolicy, at: Segments, folders: seq<Folder>)
    ensures Weight(FoldersHere(rules, policy, at, folders)) <= Sizes(folders)
  {
    if folders != [] {
      hide ShouldTraverse;
      FoldersWeighLess(rules, policy, at, folders[1..]);
      var below := at + [folders[0].name];
      var here := if ShouldTraverse(rules, below, policy) then [Visit(below, folders[0].tree)] else [];
      WeightGrows(here, FoldersHere(rules, policy, at, folders[1..]));
      WeightOfOne(below, folders[0].tree);
    }
  }

  lemma WeightOfOne(at: Segments, tree: Tree)
    ensures Weight([Visit(at, tree)]) == Size(tree) && Weight([]) == 0
  {
    assert [Visit(at, tree)][..0] == [];
  }

  ghost predicate Waiting(rules: PathRules, policy: SettingsSyncPolicy, pending: seq<Visit>, path: Segments) {
    exists visit | visit in pending :: Reached(rules, policy, visit, path)
  }

  /** Pops a directory, keeps its valid files, and pushes the folders worth traversing, until none is left. */
  method ListSettingsPaths(rules: PathRules, policy: SettingsSyncPolicy, root: Tree) returns (files: seq<Segments>)
    ensures forall path :: path in files <==> Reached(rules, policy, Visit([".obsidian"], root), path)
  {
    var pending := [Visit([".obsidian"], root)];
    files := [];
    while pending != []
      invariant forall path ::
        path in files || Waiting(rules, policy, pending, path) <==> Reached(rules, policy, Visit([".obsidian"], root), path)
      decreases Weight(pending)
    {
      var visit, rest := pending[|pending| - 1], pending[..|pending| - 1];
      var folders := FoldersHere(rules, policy, visit.at, visit.tree.folders);
      forall path
        ensures Waiting(rules, policy, pending, path) <==>
          path in FilesHere(rules, visit, 0) || Waiting(rules, policy, rest + folders, path)
      {
        VisitSplits(rules, policy, visit, path);
        hide Reached;
        assert pending == rest + [visit];
      }
      WeightGrows(rest, folders);
      FoldersWeighLess(rules, policy, visit.at, visit.tree.folders);
      hide Reached, Waiting;
      files := files + FilesHere(rules, visit, 0);
      pending := rest + folders;
    }
  }

  /** An existing file below a visited directory is reached when every directory between is traversed. */
  lemma {:induction false} ExistingIsReached(rules: PathRules, policy: SettingsSyncPolicy, visit: Visit, path: Segments)
    requires |visit.at| < |path| && path[..|visit.at|] == visit.at && rules.valid(path)
    requires FileAt(visit.tree, path[|visit.at|..])
    requires forall k: nat | |visit.at| < k < |path| :: ShouldTraverse(rules, path[..k], policy)
    ensures Reached(rules, policy, visit, path)
    decreases |path| - |visit.at|
  {
    hide ShouldTraverse;
    var rest := path[|visit.at|..];
    if |rest| > 1 {
      var folder :| folder in visit.tree.folders && folder.name == rest[0] && FileAt(folder.tree, rest[1..]);
      var at := visit.at + [folder.name];
      assert at == path[..|at|] && rest[1..] == path[|at|..];
      ExistingIsReached(rules, policy, Visit(at, folder.tree), path);
    }
  }

  lemma {:induction false} ReachedExists(rules: PathRules, policy: SettingsSyncPolicy, visit: Visit, path: Segments)
    requires Reached(rules, policy, visit, path)
    ensures |visit.at| < |path| && path[..|visit.at|] == visit.at && FileAt(visit.tree, path[|visit.at|..])
    decreases |path| - |visit.at|
  {
    hide ShouldTraverse;
    if |visit.at| + 1 < |path| {
      var folder :| folder in visit.tree.folders && folder.name == path[|visit.at|]
                    && Reached(rules, policy, Visit(visit.at + [folder.name], folder.tree), path);
      ReachedExists(rules, policy, Visit(visit.at + [folder.name], folder.tree), path);
      assert path[|visit.at|..][1..] == path[|visit.at| + 1..];
    }
  }

  /** Traversal completeness. For every policy and tree, the walk finds exactly the admitted settings files. */
  method ListSettingsFiles(rules: PathRules, policy: SettingsSyncPolicy, root: Tree) returns (files: seq<Segments>)
    requires Lawful(rules)
    ensures forall path :: path in files <==>
      |path| > 1 && path[0] == ".obsidian" && FileAt(root, path[1..]) && IsSettingsPath(rules, path, policy)
  {
    hide Lawful, IsSettingsPath, FileAt, Reached;
    if !policy.enabled {
      NothingIsAdmitted(rules, policy);
      return [];
    }
    var found := ListSettingsPaths(rules, policy, root);
    files := [];
    for i := 0 to |found|
      invariant forall path :: path in files <==> path in found[..i] && IsSettingsPath(rules, path, policy)
    {
      if IsSettingsPath(rules, found[i], policy) {
        files := files + [found[i]];
      }
    }
    forall path
      ensures IsSettingsPath(rules, path, policy) ==>
        (path in found <==> |path| > 1 && path[0] == ".obsidian" && FileAt(root, path[1..]))
    {
      AdmittedIsFound(rules, policy, root, path);
    }
    assert found[..|found|] == found;
  }

  lemma NothingIsAdmitted(rules: PathRules, policy: SettingsSyncPolicy)
    requires !policy.enabled
    ensures forall path: Segments | path != [] && path[0] == ".obsidian" :: !IsSettingsPath(rules, path, policy)
  {
  }

  lemma AdmittedIsFound(rules: PathRules, policy: SettingsSyncPolicy, root: Tree, path: Segments)
    requires Lawful(rules)
    ensures IsSettingsPath(rules, path, policy) ==>
      (Reached(rules, policy, Visit([".obsidian"], root), path) <==>
        |path| > 1 && path[0] == ".obsidian" && FileAt(root, path[1..]))
  {
    var visit := Visit([".obsidian"], root);
    if Reached(rules, policy, visit, path) {
      ReachedExists(rules, policy, visit, path);
      assert path[0] == path[..1][0];
    }
    if IsSettingsPath(rules, path, policy) && |path| > 1 && path[0] == ".obsidian" && FileAt(root, path[1..]) {
      forall k: nat | 1 < k < |path|
        ensures ShouldTraverse(rules, path[..k], policy)
      {
        AncestorsAreTraversed(rules, path, policy, k);
      }
      assert path[..1] == [".obsidian"];
      ExistingIsReached(rules, policy, visit, path);
    }
  }
}
