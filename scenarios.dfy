/** Two end-to-end runs of the pipeline on concrete inputs: discovery of
    Flutter build directories, and select-safe, confirm, clean with one
    failure. */
module Scenarios {
  import opened Host
  import opened Scanner
  import opened Ui
  import opened Cleaner

  // ---------------------------------------------------------------------
  // Flutter discovery: only the build directory next to a pubspec.yaml
  // ---------------------------------------------------------------------

  const BuildSize: nat := 150 * MiB

  function ProjectA(): Node {
    Dir("projectA", [File("pubspec.yaml", 1), Dir("build", [File("app.bin", BuildSize)])])
  }

  function ProjectB(): Node {
    Dir("projectB", [Dir("build", [File("app.bin", BuildSize)])])
  }

  function Documents(): Node {
    Dir("Documents", [ProjectA(), ProjectB()])
  }

  function Tree(): Node {
    Dir("", [Dir("home", [Dir("me", [Documents()])])])
  }

  function Me(): Env {
    Env(Linux, ["home", "me"], [], [])
  }

  function BuildDir(): Node {
    Dir("build", [File("app.bin", BuildSize)])
  }

  const Docs: Path := ["home", "me", "Documents"]

  lemma HomeLookups()
    ensures Lookup(Tree(), ["home", "me"]) == Some(Dir("me", [Documents()]))
    ensures Lookup(Tree(), Docs) == Some(Documents())
  {
    var fs := Tree();
    assert Lookup(fs, ["home"]) == Some(Dir("home", [Dir("me", [Documents()])]));
    LookupJoin(fs, ["home"], ["me"]);
    assert ["home"] + ["me"] == ["home", "me"];
    LookupJoin(fs, ["home", "me"], ["Documents"]);
    assert ["home", "me"] + ["Documents"] == Docs;
  }

  /** Looking up a path below Documents in the tree is looking it up in Documents. */
  lemma BelowDocs(q: Path)
    ensures Lookup(Tree(), Docs + q) == Lookup(Documents(), q)
  {
    HomeLookups();
    LookupJoin(Tree(), Docs, q);
  }

  /** Each of the two projects holds the same build directory. */
  lemma BuildFound(project: Node)
    requires project == ProjectA() || project == ProjectB()
    ensures Lookup(Tree(), Docs + [project.name, "build"]) == Some(BuildDir())
  {
    BelowDocs([project.name, "build"]);
    if project == ProjectA() {
      assert Lookup(Documents(), ["projectA", "build"]) == Some(BuildDir());
    } else {
      assert Lookup(Documents(), ["projectB", "build"]) == Some(BuildDir());
    }
  }

  lemma PubspecAFound()
    ensures Exists(Tree(), Docs + ["projectA", "pubspec.yaml"])
  {
    BelowDocs(["projectA", "pubspec.yaml"]);
    assert Lookup(Documents(), ["projectA", "pubspec.yaml"]) == Some(File("pubspec.yaml", 1));
  }

  lemma PubspecBMissing()
    ensures !Exists(Tree(), Docs + ["projectB", "pubspec.yaml"])
  {
    BelowDocs(["projectB", "pubspec.yaml"]);
    assert Lookup(Documents(), ["projectB", "pubspec.yaml"]) == None;
  }

  lemma PubCacheMissing()
    ensures !Exists(Tree(), ["home", "me", ".pub-cache"])
  {
    HomeLookups();
    LookupJoin(Tree(), ["home", "me"], [".pub-cache"]);
  }

  function ProjectPath(project: Node): Path {
    Docs + [project.name]
  }

  /** The item reported for a project's build directory. */
  function BuildItem(project: Node): CleanableItem {
    CleanableItem(ProjectPath(project) + ["build"], BuildSize, "Flutter", "Build directory: " + project.name, Safe)
  }

  /** The build directory holds 150 MiB, and it is reported exactly when
      the project holds a pubspec.yaml. */
  lemma ProjectBuildItems(project: Node, pubspec: bool)
    requires project == (if pubspec then ProjectA() else ProjectB())
    ensures BuildItems(Tree(), ProjectPath(project) + ["build"], "build")
      == if pubspec then [BuildItem(project)] else []
  {
    var p := ProjectPath(project);
    var bin := File("app.bin", BuildSize);
    assert [bin][..0] == [];
    assert DirSize(BuildDir()) == BuildSize;
    assert p + ["build"] == Docs + [project.name, "build"];
    assert p + ["pubspec.yaml"] == Docs + [project.name, "pubspec.yaml"];
    BuildFound(project);
    if pubspec {
      PubspecAFound();
    } else {
      PubspecBMissing();
    }
    assert SizeAt(Tree(), p + ["build"]) == BuildSize;
    assert Parent(p + ["build"]) == p;
  }

  /** Nothing is found below a build directory. */
  lemma BuildDirWalk(p: Path)
    ensures FlutterWalk(Tree(), p, BuildDir()) == BuildItems(Tree(), p, "build")
  {
    var bin := File("app.bin", BuildSize);
    assert [bin][..0] == [];
    assert FlutterWalkAll(Tree(), p, [bin]) == [];
  }

  /** The walk below one project: a build directory is reported exactly
      when the project holds a pubspec.yaml. */
  lemma ProjectWalk(project: Node, pubspec: bool)
    requires project == (if pubspec then ProjectA() else ProjectB())
    ensures FlutterWalk(Tree(), ProjectPath(project), project) == if pubspec then [BuildItem(project)] else []
  {
    var fs := Tree();
    var p := ProjectPath(project);
    ProjectBuildItems(project, pubspec);
    BuildDirWalk(p + ["build"]);
    var items := BuildItems(fs, p + ["build"], "build");
    if pubspec {
      var pub := File("pubspec.yaml", 1);
      assert [pub, BuildDir()][..1] == [pub];
      assert [pub][..0] == [];
      assert FlutterWalk(fs, p + ["pubspec.yaml"], pub) == [];
      assert FlutterWalkAll(fs, p, [pub]) == [];
      assert FlutterWalkAll(fs, p, [pub, BuildDir()]) == FlutterWalkAll(fs, p, [pub]) + FlutterWalk(fs, p + ["build"], BuildDir());
    } else {
      assert [BuildDir()][..0] == [];
      assert FlutterWalkAll(fs, p, [BuildDir()]) == items;
    }
  }

  /** Documents itself is entered and is neither a build nor a .dart_tool directory. */
  lemma DocumentsSelf()
    ensures !Pruned("Documents")
    ensures BuildItems(Tree(), Docs, "Documents") == [] && DartToolItems(Tree(), Docs, "Documents") == []
  {
    assert "Documents"[0] == 'D';
  }

  lemma DocumentsChildren()
    ensures FlutterWalkAll(Tree(), Docs, [ProjectA(), ProjectB()]) == [BuildItem(ProjectA())]
  {
    ProjectWalk(ProjectA(), true);
    ProjectWalk(ProjectB(), false);
    var fs := Tree();
    assert [ProjectA(), ProjectB()][..1] == [ProjectA()];
    assert [ProjectA()][..0] == [];
    assert FlutterWalkAll(fs, Docs, [ProjectA()]) == [] + FlutterWalk(fs, ProjectPath(ProjectA()), ProjectA());
    assert FlutterWalkAll(fs, Docs, [ProjectA(), ProjectB()])
      == FlutterWalkAll(fs, Docs, [ProjectA()]) + FlutterWalk(fs, ProjectPath(ProjectB()), ProjectB());
  }

  /** The walk of Documents reports projectA's build directory alone. */
  lemma DocumentsWalk()
    ensures FlutterWalk(Tree(), Docs, Documents()) == [BuildItem(ProjectA())]
  {
    DocumentsSelf();
    DocumentsChildren();
    assert FlutterWalk(Tree(), Docs, Documents())
      == [] + [] + FlutterWalkAll(Tree(), Docs, [ProjectA(), ProjectB()]);
  }

  /** ScanFlutter with the default base finds projectA's build directory,
      150 MiB, and not projectB's, which has no pubspec.yaml beside it. */
  lemma FlutterScenario()
    ensures FlutterItems(Tree(), Me(), []) == [BuildItem(ProjectA())]
    ensures BuildItem(ProjectA()).path == ["home", "me", "Documents", "projectA", "build"]
    ensures BuildItem(ProjectA()).size == 150 * MiB
  {
    HomeLookups();
    DocumentsWalk();
    NoPubCacheItem();
    assert FlutterBase(Me(), []) == Docs;
    assert FlutterItems(Tree(), Me(), [])
      == FlutterWalk(Tree(), Docs, Documents()) + RuleItem(Tree(), PubCacheRule(Me()), LargeCacheThreshold);
  }

  lemma NoPubCacheItem()
    ensures RuleItem(Tree(), PubCacheRule(Me()), LargeCacheThreshold) == []
  {
    PubCacheMissing();
    assert PubCacheRule(Me()).path == ["home", "me", ".pub-cache"];
  }

  // ---------------------------------------------------------------------
  // Select the safe items, confirm, clean with one failure
  // ---------------------------------------------------------------------

  function Big(): CleanableItem {
    CleanableItem(["big"], 500 * MiB, "Cache", "big", Safe)
  }

  function Medium(): CleanableItem {
    CleanableItem(["medium"], 200 * MiB, "Cache", "medium", Caution)
  }

  function Small(): CleanableItem {
    CleanableItem(["small"], 10 * MiB, "Cache", "small", Safe)
  }

  function ScenarioItems(): seq<CleanableItem> {
    [Big(), Medium(), Small()]
  }

  /** 's' selects exactly positions 0 and 2, and enter then confirms. */
  lemma ScenarioRun()
    ensures var f := Run(ScenarioItems(), Initial(), [KeyMsg("s"), KeyMsg("enter")]);
      f.confirm && !f.quit && IsSelected(f.selected, 0) && !IsSelected(f.selected, 1) && IsSelected(f.selected, 2)
  {
    var items := ScenarioItems();
    var s1 := Step(items, Initial(), KeyMsg("s")).0;
    SelectSafeExact(items, Initial());
    assert IsSelected(s1.selected, 0) && !IsSelected(s1.selected, 1) && IsSelected(s1.selected, 2);
    assert HasSelection(s1.selected);
    assert [KeyMsg("s"), KeyMsg("enter")][1..] == [KeyMsg("enter")];
  }

  /** The confirmed selection is the two safe items, in list order. */
  lemma ScenarioChoice()
    ensures SelectionResult(ScenarioItems(), [KeyMsg("s"), KeyMsg("enter")], false) == [Big(), Small()]
  {
    var f := Run(ScenarioItems(), Initial(), [KeyMsg("s"), KeyMsg("enter")]);
    ScenarioRun();
    ChoiceOfFlags(f.selected);
  }

  lemma ChoiceOfFlags(sel: map<int, bool>)
    requires IsSelected(sel, 0) && !IsSelected(sel, 1) && IsSelected(sel, 2)
    ensures Selected(ScenarioItems(), sel) == [Big(), Small()]
  {
    var items := ScenarioItems();
    assert items[..2] == [Big(), Medium()] && items[..2][..1] == [Big()] && [Big()][..0] == [];
    assert Selected([Big()], sel) == [Big()];
    assert Selected([Big(), Medium()], sel) == [Big()];
  }

  /** Removing the two chosen items, the small one failing, frees 500 MiB. */
  lemma ScenarioClean()
    ensures SumSizes([Big(), Small()]) == 510 * MiB
    ensures Succeeded([Big(), Small()], [true, false]) == [Big()]
    ensures SumSizes([Big()]) == 500 * MiB
  {
    assert [Big(), Small()][..1] == [Big()];
    assert [true, false][..1] == [true];
    assert [Big()][..0] == [];
  }

  /** With items of 500, 200 and 10 MiB (the 200 one not safe), 's' then
      enter confirms the two safe items, 510 MiB in all; removing them
      with the small one failing frees 500 MiB. */
  lemma SelectAndCleanScenario()
    ensures var chosen := SelectionResult([Big(), Medium(), Small()], [KeyMsg("s"), KeyMsg("enter")], false);
      && chosen == [Big(), Small()]
      && SumSizes(chosen) == 510 * MiB
      && Succeeded(chosen, [true, false]) == [Big()]
      && SumSizes(Succeeded(chosen, [true, false])) == 500 * MiB
  {
    ScenarioChoice();
    ScenarioClean();
  }
}
