/** Discovery: the fixed-path rule tables, the directory size walk, the
    Flutter project walk and the AVD scan of internal/scanner/scanner.go.
    Every scan is a method that loops and appends, proved equal to a
    specification function; the lemmas state what the scans promise. */
module Scanner {
  import opened Host

  datatype SafeLevel = Safe | Caution | Warning

  /** One reclaimable location found by a scan. */
  datatype CleanableItem = CleanableItem(
    path: Path,
    size: nat,
    category: string,
    description: string,
    level: SafeLevel)

  /** The total size of a list of items. */
  function SumSizes(items: seq<CleanableItem>): nat {
    if items == [] then 0 else SumSizes(items[..|items| - 1]) + items[|items| - 1].size
  }

  lemma {:induction false} SumSizesAppend(a: seq<CleanableItem>, b: seq<CleanableItem>)
    ensures SumSizes(a + b) == SumSizes(a) + SumSizes(b)
    decreases |b|
  {
    if b == [] {
      assert a + b == a;
    } else {
      SumSizesAppend(a, b[..|b| - 1]);
      assert (a + b)[..|a + b| - 1] == a + b[..|b| - 1];
    }
  }

  /** Taking one item out of a list takes its size out of the total. */
  lemma SumSizesRemove(b: seq<CleanableItem>, k: nat)
    requires k < |b|
    ensures SumSizes(b) == SumSizes(b[..k] + b[k + 1..]) + b[k].size
  {
    var left, right := b[..k], b[k + 1..];
    var mid := b[..k + 1];
    assert b == mid + right by {
      assert b == b[..k + 1] + b[k + 1..];
    }
    SumSizesAppend(mid, right);
    assert mid[..k] == left;
    SumSizesAppend(left, right);
  }

  /** Taking one occurrence out of a list takes it out of its multiset. */
  lemma MultisetRemove(b: seq<CleanableItem>, k: nat)
    requires k < |b|
    ensures multiset(b[..k] + b[k + 1..]) == multiset(b) - multiset{b[k]}
  {
    assert b == b[..k] + [b[k]] + b[k + 1..];
    assert multiset(b) == multiset(b[..k]) + multiset{b[k]} + multiset(b[k + 1..]);
  }

  /** The total does not depend on the order of the items. */
  lemma {:induction false} SumSizesPermutation(a: seq<CleanableItem>, b: seq<CleanableItem>)
    requires multiset(a) == multiset(b)
    ensures SumSizes(a) == SumSizes(b)
    decreases |a|
  {
    if a == [] {
      assert |b| == |multiset(b)| == 0;
    } else {
      var x := a[|a| - 1];
      var init := a[..|a| - 1];
      assert a == init + [x];
      assert multiset(a) == multiset(init) + multiset{x};
      assert x in multiset(b);
      var k :| 0 <= k < |b| && b[k] == x;
      MultisetRemove(b, k);
      SumSizesPermutation(init, b[..k] + b[k + 1..]);
      SumSizesRemove(b, k);
    }
  }

  const MiB: nat := 1024 * 1024
  const GiB: nat := 1024 * MiB

  // An item is reported only when its size is strictly above its threshold.
  const AntigravityThreshold: nat := 0
  /** Xcode, Android and pub caches, Flutter build directories. */
  const LargeCacheThreshold: nat := 100 * MiB
  /** VS Code caches and .dart_tool directories. */
  const EditorCacheThreshold: nat := 50 * MiB
  const AvdThreshold: nat := GiB

  // ---------------------------------------------------------------------
  // Directory size (getDirSize)
  // ---------------------------------------------------------------------

  /** The sum of the sizes of the non-directory entries under `n`; an entry
      the walk cannot read adds nothing. */
  function DirSize(n: Node): nat
    decreases n
  {
    match n
    case File(_, size) => size
    case Dir(_, children) => SizeOfAll(children)
    case Unreadable(_) => 0
  }

  function SizeOfAll(ns: seq<Node>): nat
    decreases ns
  {
    if ns == [] then 0 else SizeOfAll(ns[..|ns| - 1]) + DirSize(ns[|ns| - 1])
  }

  /** getDirSize(path): a path that cannot be stat'ed gives 0. */
  function SizeAt(fs: Node, p: Path): nat {
    match Lookup(fs, p)
    case Some(n) => DirSize(n)
    case None => 0
  }

  lemma {:induction false} SizeOfAllAppend(a: seq<Node>, b: seq<Node>)
    ensures SizeOfAll(a + b) == SizeOfAll(a) + SizeOfAll(b)
    decreases |b|
  {
    if b == [] {
      assert a + b == a;
    } else {
      SizeOfAllAppend(a, b[..|b| - 1]);
      assert (a + b)[..|a + b| - 1] == a + b[..|b| - 1];
    }
  }

  /** An unreadable entry contributes nothing, and the entries after it are
      still counted: the walk does not stop at an error. */
  lemma SkipsUnreadable(before: seq<Node>, name: string, after: seq<Node>)
    ensures SizeOfAll(before + [Unreadable(name)] + after) == SizeOfAll(before) + SizeOfAll(after)
  {
    SizeOfAllAppend(before + [Unreadable(name)], after);
    SizeOfAllAppend(before, [Unreadable(name)]);
    assert [Unreadable(name)][..0] == [];
  }

  /** A directory's size is at least that of each of its entries. */
  lemma {:induction false} ChildSizeBound(children: seq<Node>, k: nat)
    requires k < |children|
    ensures DirSize(children[k]) <= SizeOfAll(children)
    decreases |children|
  {
    if k < |children| - 1 {
      ChildSizeBound(children[..|children| - 1], k);
    }
  }

  /** The walk of filepath.Walk with getDirSize's callback: files add their
      size, directories add nothing, entries that error are skipped. */
  method WalkSize(n: Node) returns (size: nat)
    ensures size == DirSize(n)
    decreases n
  {
    match n {
      case File(_, s) =>
        size := s;
      case Unreadable(_) =>
        size := 0;
      case Dir(_, children) =>
        size := 0;
        for i := 0 to |children|
          invariant size == SizeOfAll(children[..i])
        {
          var s := WalkSize(children[i]);
          assert children[..i + 1][..i] == children[..i];
          size := size + s;
        }
        assert children[..|children|] == children;
    }
  }

  method GetDirSize(fs: Node, p: Path) returns (size: nat)
    ensures size == SizeAt(fs, p)
  {
    match Lookup(fs, p) {
      case Some(n) =>
        size := WalkSize(n);
      case None =>
        size := 0;
    }
  }

  // ---------------------------------------------------------------------
  // Fixed-path rules
  // ---------------------------------------------------------------------

  /** One row of a rule table: where to look and how to label what is found. */
  datatype Rule = Rule(path: Path, category: string, description: string, level: SafeLevel)

  /** The item a rule produces for a measured size: everything but the size
      comes from the rule. */
  function ItemFor(r: Rule, size: nat): CleanableItem {
    CleanableItem(r.path, size, r.category, r.description, r.level)
  }

  predicate Accepted(fs: Node, r: Rule, threshold: nat) {
    Exists(fs, r.path) && SizeAt(fs, r.path) > threshold
  }

  function RuleItem(fs: Node, r: Rule, threshold: nat): seq<CleanableItem> {
    if Accepted(fs, r, threshold) then [ItemFor(r, SizeAt(fs, r.path))] else []
  }

  /** The items a rule table yields, in table order. */
  function RuleItems(fs: Node, rules: seq<Rule>, threshold: nat): seq<CleanableItem> {
    if rules == [] then []
    else RuleItems(fs, rules[..|rules| - 1], threshold) + RuleItem(fs, rules[|rules| - 1], threshold)
  }

  /** The loop every fixed-rule scan runs: for each row whose path exists,
      measure it and append an item when the size is above the threshold. */
  method ScanRules(fs: Node, rules: seq<Rule>, threshold: nat) returns (results: seq<CleanableItem>)
    ensures results == RuleItems(fs, rules, threshold)
  {
    results := [];
    for i := 0 to |rules|
      invariant results == RuleItems(fs, rules[..i], threshold)
    {
      var r := rules[i];
      if Exists(fs, r.path) {
        var size := GetDirSize(fs, r.path);
        if size > threshold {
          results := results + [CleanableItem(r.path, size, r.category, r.description, r.level)];
        }
      }
      assert rules[..i + 1][..i] == rules[..i];
    }
    assert rules[..|rules|] == rules;
  }

  lemma AppendLast<T>(a: seq<T>, b: seq<T>)
    requires b != []
    ensures (a + b)[..|a + b| - 1] == a + b[..|b| - 1] && (a + b)[|a + b| - 1] == b[|b| - 1]
  {
  }

  lemma RuleItemsLast(fs: Node, rules: seq<Rule>, threshold: nat)
    requires rules != []
    ensures RuleItems(fs, rules, threshold)
      == RuleItems(fs, rules[..|rules| - 1], threshold) + RuleItem(fs, rules[|rules| - 1], threshold)
  {
  }

  /** Scanning two tables one after the other yields their items in order. */
  lemma {:induction false} RuleItemsAppend(fs: Node, a: seq<Rule>, b: seq<Rule>, threshold: nat)
    ensures RuleItems(fs, a + b, threshold) == RuleItems(fs, a, threshold) + RuleItems(fs, b, threshold)
    decreases |b|
  {
    if b == [] {
      assert a + b == a;
    } else {
      var init := b[..|b| - 1];
      var ab := a + b;
      RuleItemsAppend(fs, a, init, threshold);
      RuleItemsLast(fs, b, threshold);
      AppendLast(a, b);
      RuleItemsLast(fs, ab, threshold);
    }
  }

  /** Every item comes from a row of the table whose path exists and whose
      size is strictly above the threshold, and carries that row's labels. */
  lemma {:induction false} RuleItemsSound(fs: Node, rules: seq<Rule>, threshold: nat)
    ensures forall it :: it in RuleItems(fs, rules, threshold) ==>
      exists r :: r in rules && Accepted(fs, r, threshold) && it == ItemFor(r, SizeAt(fs, r.path))
    decreases |rules|
  {
    if rules != [] {
      var init := rules[..|rules| - 1];
      RuleItemsSound(fs, init, threshold);
      forall it | it in RuleItems(fs, rules, threshold)
        ensures exists r :: r in rules && Accepted(fs, r, threshold) && it == ItemFor(r, SizeAt(fs, r.path))
      {
        if it in RuleItems(fs, init, threshold) {
          var r :| r in init && Accepted(fs, r, threshold) && it == ItemFor(r, SizeAt(fs, r.path));
          assert r in rules;
        } else {
          assert rules[|rules| - 1] in rules;
        }
      }
    }
  }

  /** Every row whose path exists with a size above the threshold yields its item. */
  lemma {:induction false} RuleItemsComplete(fs: Node, rules: seq<Rule>, threshold: nat)
    ensures forall r :: r in rules && Accepted(fs, r, threshold) ==>
      ItemFor(r, SizeAt(fs, r.path)) in RuleItems(fs, rules, threshold)
    decreases |rules|
  {
    if rules != [] {
      var init := rules[..|rules| - 1];
      RuleItemsComplete(fs, init, threshold);
      assert rules == init + [rules[|rules| - 1]];
    }
  }

  /** A row's item is reported exactly when its path exists and its size is
      strictly above the threshold (a size equal to it is left out). */
  lemma RuleReportedIff(fs: Node, rules: seq<Rule>, threshold: nat, r: Rule)
    requires r in rules
    ensures ItemFor(r, SizeAt(fs, r.path)) in RuleItems(fs, rules, threshold)
            <==> Exists(fs, r.path) && SizeAt(fs, r.path) > threshold
  {
    RuleItemsSound(fs, rules, threshold);
    RuleItemsComplete(fs, rules, threshold);
  }

  /** Every item of a table has a size strictly above the threshold, hence positive. */
  lemma RuleItemsAboveThreshold(fs: Node, rules: seq<Rule>, threshold: nat)
    ensures forall it :: it in RuleItems(fs, rules, threshold) ==> it.size > threshold && it.size > 0
  {
    RuleItemsSound(fs, rules, threshold);
  }

  /** Every item of a table whose rows all carry `category` has that category. */
  lemma RuleItemsCategory(fs: Node, rules: seq<Rule>, threshold: nat, category: string)
    requires forall r :: r in rules ==> r.category == category
    ensures forall it :: it in RuleItems(fs, rules, threshold) ==> it.category == category
  {
    RuleItemsSound(fs, rules, threshold);
  }

  // ---------------------------------------------------------------------
  // Rule tables
  // ---------------------------------------------------------------------

  function AntigravityRules(env: Env): seq<Rule> {
    var home := env.home;
    var gemini := home + [".gemini", "antigravity"];
    match env.platform
    case Darwin =>
      var support := home + ["Library", "Application Support", "Antigravity"];
      [ Rule(gemini + ["browser_recordings"], "Antigravity", "Session recordings (screenshots)", Safe),
        Rule(gemini + ["conversations"], "Antigravity", "Conversation history", Caution),
        Rule(gemini + ["brain"], "Antigravity", "AI memory cache", Caution),
        Rule(gemini + ["implicit"], "Antigravity", "Implicit data cache", Safe),
        Rule(support + ["CachedData"], "Antigravity", "JS/WASM cached data", Safe),
        Rule(support + ["Code Cache"], "Antigravity", "Code cache", Safe),
        Rule(support + ["User", "_extensions-disabled"], "Antigravity", "Disabled extensions backup", Safe),
        Rule(support + ["DawnWebGPUCache"], "Antigravity", "WebGPU cache", Safe),
        Rule(support + ["DawnGraphiteCache"], "Antigravity", "Graphite cache", Safe),
        Rule(support + ["User", "workspaceStorage"], "Antigravity", "Workspace storage", Caution),
        Rule(home + [".antigravity", "extensions"], "Antigravity", "Old extension versions", Safe) ]
    case Windows =>
      [ Rule(gemini + ["browser_recordings"], "Antigravity", "Session recordings", Safe),
        Rule(gemini + ["conversations"], "Antigravity", "Conversation history", Caution),
        Rule(gemini + ["brain"], "Antigravity", "AI memory cache", Caution),
        Rule(env.appData + ["Antigravity", "CachedData"], "Antigravity", "Cached data", Safe),
        Rule(env.appData + ["Antigravity", "Code Cache"], "Antigravity", "Code cache", Safe),
        Rule(env.localAppData + ["Antigravity", "CachedData"], "Antigravity", "Local cached data", Safe) ]
    case Linux =>
      var config := home + [".config"];
      [ Rule(gemini + ["browser_recordings"], "Antigravity", "Session recordings", Safe),
        Rule(gemini + ["conversations"], "Antigravity", "Conversation history", Caution),
        Rule(gemini + ["brain"], "Antigravity", "AI memory cache", Caution),
        Rule(config + ["Antigravity", "CachedData"], "Antigravity", "Cached data", Safe),
        Rule(config + ["Antigravity", "Code Cache"], "Antigravity", "Code cache", Safe) ]
    case OtherPlatform => []
  }

  function XcodeRules(env: Env): seq<Rule> {
    var developer := env.home + ["Library", "Developer"];
    [ Rule(developer + ["Xcode", "DerivedData"], "Xcode", "Xcode DerivedData", Safe),
      Rule(developer + ["Xcode", "iOS DeviceSupport"], "Xcode", "iOS DeviceSupport", Safe),
      Rule(developer + ["Xcode", "watchOS DeviceSupport"], "Xcode", "watchOS DeviceSupport", Safe),
      Rule(developer + ["Xcode", "Archives"], "Xcode", "Xcode Archives", Caution),
      Rule(developer + ["CoreSimulator", "Caches"], "Xcode", "Simulator Caches", Safe) ]
  }

  function AndroidRules(env: Env): seq<Rule> {
    [ Rule(env.home + [".gradle", "caches"], "Android", "Gradle caches", Safe),
      Rule(env.home + [".gradle", "wrapper", "dists"], "Android", "Gradle distributions", Caution),
      Rule(env.home + [".android", "cache"], "Android", "Android SDK cache", Safe) ]
  }

  function PubCacheRule(env: Env): Rule {
    Rule(env.home + [".pub-cache"], "Flutter", "Pub package cache", Caution)
  }

  /** The editor installations whose caches are scanned. */
  function VSCodeBases(env: Env): seq<Path> {
    match env.platform
    case Darwin =>
      [env.home + ["Library", "Application Support", "Code"],
       env.home + ["Library", "Application Support", "Cursor"]]
    case Windows => [env.appData + ["Code"], env.appData + ["Cursor"]]
    case Linux => [env.home + [".config", "Code"], env.home + [".config", "Cursor"]]
    case OtherPlatform => []
  }

  const CacheSubdirs: seq<string> := ["CachedData", "Code Cache", "CachedExtensions", "CachedExtensionVSIXs"]

  function VSCodeRule(base: Path, subdir: string): Rule {
    Rule(base + [subdir], "VS Code", Base(base) + " " + subdir, Safe)
  }

  function SubdirRules(base: Path, subdirs: seq<string>): seq<Rule> {
    if subdirs == [] then [] else [VSCodeRule(base, subdirs[0])] + SubdirRules(base, subdirs[1..])
  }

  /** Every installation crossed with every cache directory, installation-major. */
  function CrossRules(bases: seq<Path>): seq<Rule> {
    if bases == [] then [] else SubdirRules(bases[0], CacheSubdirs) + CrossRules(bases[1..])
  }

  function VSCodeRules(env: Env): seq<Rule> {
    CrossRules(VSCodeBases(env))
  }

  lemma {:induction false} SubdirRulesAt(base: Path, subdirs: seq<string>)
    ensures |SubdirRules(base, subdirs)| == |subdirs|
    ensures forall j :: 0 <= j < |subdirs| ==> SubdirRules(base, subdirs)[j] == VSCodeRule(base, subdirs[j])
  {
    if subdirs != [] {
      SubdirRulesAt(base, subdirs[1..]);
    }
  }

  /** The k-th VS Code candidate is installation k / 4 with cache directory k % 4. */
  lemma {:induction false} CrossRulesAt(bases: seq<Path>)
    ensures |CrossRules(bases)| == 4 * |bases|
    ensures forall k :: 0 <= k < |CrossRules(bases)| ==>
      CrossRules(bases)[k] == VSCodeRule(bases[k / 4], CacheSubdirs[k % 4])
  {
    if bases != [] {
      SubdirRulesAt(bases[0], CacheSubdirs);
      CrossRulesAt(bases[1..]);
      var r := CrossRules(bases);
      forall k | 0 <= k < |r|
        ensures r[k] == VSCodeRule(bases[k / 4], CacheSubdirs[k % 4])
      {
        if k >= 4 {
          assert r[k] == CrossRules(bases[1..])[k - 4];
          assert (k - 4) / 4 == k / 4 - 1 && (k - 4) % 4 == k % 4;
        }
      }
    }
  }

  // ---------------------------------------------------------------------
  // Scans
  // ---------------------------------------------------------------------

  function AntigravityItems(fs: Node, env: Env): seq<CleanableItem> {
    RuleItems(fs, AntigravityRules(env), AntigravityThreshold)
  }

  method ScanAntigravity(fs: Node, env: Env) returns (results: seq<CleanableItem>)
    ensures results == AntigravityItems(fs, env)
  {
    results := ScanRules(fs, AntigravityRules(env), AntigravityThreshold);
  }

  /** Every Antigravity item is a non-empty, existing location of the
      platform's table, labelled by its row; other platforms yield nothing. */
  lemma AntigravityItemsProps(fs: Node, env: Env)
    ensures forall it :: it in AntigravityItems(fs, env) ==>
      it.size > 0 && it.category == "Antigravity" &&
      exists r :: r in AntigravityRules(env) && Exists(fs, r.path) && it == ItemFor(r, SizeAt(fs, r.path))
    ensures env.platform == OtherPlatform ==> AntigravityItems(fs, env) == []
  {
    AntigravityRulesCategory(env);
    RuleItemsSound(fs, AntigravityRules(env), AntigravityThreshold);
    RuleItemsCategory(fs, AntigravityRules(env), AntigravityThreshold, "Antigravity");
  }

  lemma AntigravityRulesCategory(env: Env)
    ensures forall r :: r in AntigravityRules(env) ==> r.category == "Antigravity"
    ensures env.platform == OtherPlatform ==> AntigravityRules(env) == []
  {
  }

  function XcodeItems(fs: Node, env: Env): seq<CleanableItem> {
    if env.platform != Darwin then [] else RuleItems(fs, XcodeRules(env), LargeCacheThreshold)
  }

  method ScanXcode(fs: Node, env: Env) returns (results: seq<CleanableItem>)
    ensures results == XcodeItems(fs, env)
  {
    results := [];
    if env.platform != Darwin {
      return;
    }
    results := ScanRules(fs, XcodeRules(env), LargeCacheThreshold);
  }

  /** Xcode items exist only on darwin, are above 100 MiB and carry the
      labels of their row. */
  lemma XcodeItemsProps(fs: Node, env: Env)
    ensures env.platform != Darwin ==> XcodeItems(fs, env) == []
    ensures forall it :: it in XcodeItems(fs, env) ==>
      it.size > LargeCacheThreshold && it.category == "Xcode" &&
      exists r :: r in XcodeRules(env) && Exists(fs, r.path) && it == ItemFor(r, SizeAt(fs, r.path))
  {
    RuleItemsSound(fs, XcodeRules(env), LargeCacheThreshold);
  }

  function AvdDir(env: Env): Path {
    env.home + [".android", "avd"]
  }

  function AvdItem(fs: Node, avd: Path, entry: Node): seq<CleanableItem> {
    if entry.Dir? && Ext(entry.name) == ".avd" && SizeAt(fs, avd + [entry.name]) > AvdThreshold
    then [CleanableItem(avd + [entry.name], SizeAt(fs, avd + [entry.name]), "Android", "AVD: " + entry.name, Warning)]
    else []
  }

  function AvdEntryItems(fs: Node, avd: Path, entries: seq<Node>): seq<CleanableItem> {
    if entries == [] then []
    else AvdEntryItems(fs, avd, entries[..|entries| - 1]) + AvdItem(fs, avd, entries[|entries| - 1])
  }

  /** The AVD images: a missing directory, or one that cannot be listed
      (os.ReadDir fails), yields nothing. */
  function AvdItems(fs: Node, env: Env): seq<CleanableItem> {
    match Lookup(fs, AvdDir(env))
    case Some(Dir(_, entries)) => AvdEntryItems(fs, AvdDir(env), entries)
    case _ => []
  }

  method ScanAvd(fs: Node, env: Env) returns (results: seq<CleanableItem>)
    ensures results == AvdItems(fs, env)
  {
    results := [];
    var avd := AvdDir(env);
    if !Exists(fs, avd) {
      return;
    }
    match Lookup(fs, avd) {
      case Some(Dir(_, entries)) =>
        for i := 0 to |entries|
          invariant results == AvdEntryItems(fs, avd, entries[..i])
        {
          var entry := entries[i];
          if entry.Dir? && Ext(entry.name) == ".avd" {
            var fullPath := avd + [entry.name];
            var size := GetDirSize(fs, fullPath);
            if size > AvdThreshold {
              results := results + [CleanableItem(fullPath, size, "Android", "AVD: " + entry.name, Warning)];
            }
          }
          assert entries[..i + 1][..i] == entries[..i];
        }
        assert entries[..|entries|] == entries;
      case _ =>
    }
  }

  /** Every AVD item is a directory directly inside ~/.android/avd whose name
      ends in ".avd", larger than 1 GiB, tagged warning and named after it. */
  lemma {:induction false} AvdEntryItemsProps(fs: Node, avd: Path, entries: seq<Node>)
    ensures forall it :: it in AvdEntryItems(fs, avd, entries) ==>
      Parent(it.path) == avd && EndsWith(Base(it.path), ".avd") &&
      it.size > AvdThreshold && it.size == SizeAt(fs, it.path) &&
      it.category == "Android" && it.level == Warning && it.description == "AVD: " + Base(it.path) &&
      exists e :: e in entries && e.Dir? && Ext(e.name) == ".avd" && it.path == avd + [e.name]
    decreases |entries|
  {
    if entries != [] {
      var init := entries[..|entries| - 1];
      var e := entries[|entries| - 1];
      AvdEntryItemsProps(fs, avd, init);
      AvdExtension(e.name);
      assert Parent(avd + [e.name]) == avd;
      forall it | it in AvdEntryItems(fs, avd, entries)
        ensures exists e' :: e' in entries && e'.Dir? && Ext(e'.name) == ".avd" && it.path == avd + [e'.name]
      {
        if it in AvdEntryItems(fs, avd, init) {
          var e' :| e' in init && e'.Dir? && Ext(e'.name) == ".avd" && it.path == avd + [e'.name];
          assert e' in entries;
        } else {
          assert e in entries;
        }
      }
    }
  }

  /** Every `.avd` directory entry above 1 GiB is reported. */
  lemma {:induction false} AvdEntryItemsComplete(fs: Node, avd: Path, entries: seq<Node>)
    ensures forall e :: e in entries && e.Dir? && Ext(e.name) == ".avd" && SizeAt(fs, avd + [e.name]) > AvdThreshold ==>
      CleanableItem(avd + [e.name], SizeAt(fs, avd + [e.name]), "Android", "AVD: " + e.name, Warning)
        in AvdEntryItems(fs, avd, entries)
    decreases |entries|
  {
    if entries != [] {
      var init := entries[..|entries| - 1];
      AvdEntryItemsComplete(fs, avd, init);
      assert entries == init + [entries[|entries| - 1]];
    }
  }

  function AndroidItems(fs: Node, env: Env): seq<CleanableItem> {
    RuleItems(fs, AndroidRules(env), LargeCacheThreshold) + AvdItems(fs, env)
  }

  method ScanAndroid(fs: Node, env: Env) returns (results: seq<CleanableItem>)
    ensures results == AndroidItems(fs, env)
  {
    results := ScanRules(fs, AndroidRules(env), LargeCacheThreshold);
    var avd := ScanAvd(fs, env);
    results := results + avd;
  }

  function VSCodeItems(fs: Node, env: Env): seq<CleanableItem> {
    RuleItems(fs, VSCodeRules(env), EditorCacheThreshold)
  }

  method ScanVSCode(fs: Node, env: Env) returns (results: seq<CleanableItem>)
    ensures results == VSCodeItems(fs, env)
  {
    results := ScanRules(fs, VSCodeRules(env), EditorCacheThreshold);
  }

  /** VS Code items are safe caches above 50 MiB, each one of the four cache
      directories of an installation and described by that installation's
      base name and the directory; other platforms yield nothing. */
  lemma VSCodeItemsProps(fs: Node, env: Env)
    ensures env.platform == OtherPlatform ==> VSCodeItems(fs, env) == []
    ensures forall it :: it in VSCodeItems(fs, env) ==>
      it.size > EditorCacheThreshold && it.category == "VS Code" && it.level == Safe &&
      (exists b, s :: b in VSCodeBases(env) && s in CacheSubdirs &&
                      it.path == b + [s] && it.description == Base(b) + " " + s)
  {
    var rules := VSCodeRules(env);
    RuleItemsSound(fs, rules, EditorCacheThreshold);
    CrossRulesAt(VSCodeBases(env));
    forall it | it in VSCodeItems(fs, env)
      ensures (exists b, s :: b in VSCodeBases(env) && s in CacheSubdirs &&
                       it.path == b + [s] && it.description == Base(b) + " " + s)
    {
      var r :| r in rules && Accepted(fs, r, EditorCacheThreshold) && it == ItemFor(r, SizeAt(fs, r.path));
      VSCodeRuleShape(VSCodeBases(env), r);
    }
  }

  /** A VS Code candidate names one cache directory of one installation. */
  lemma VSCodeRuleShape(bases: seq<Path>, r: Rule)
    requires r in CrossRules(bases)
    ensures exists b, s ::
      b in bases && s in CacheSubdirs && r.path == b + [s] && r.description == Base(b) + " " + s
  {
    CrossRulesAt(bases);
    var k :| 0 <= k < |CrossRules(bases)| && CrossRules(bases)[k] == r;
    assert bases[k / 4] in bases;
    assert CacheSubdirs[k % 4] in CacheSubdirs;
  }

  // ---------------------------------------------------------------------
  // Flutter project walk
  // ---------------------------------------------------------------------

  /** The walk skips hidden directories and node_modules without entering them. */
  predicate Pruned(name: string) {
    (|name| > 0 && name[0] == '.') || name == "node_modules"
  }

  const PubspecName: string := "pubspec.yaml"

  /** The report the walk makes for a qualifying build directory at `p`. */
  function BuildReport(fs: Node, p: Path): CleanableItem {
    CleanableItem(p, SizeAt(fs, p), "Flutter", "Build directory: " + Base(Parent(p)), Safe)
  }

  function BuildItems(fs: Node, path: Path, name: string): seq<CleanableItem> {
    if name == "build" && Exists(fs, Parent(path) + [PubspecName]) && SizeAt(fs, path) > LargeCacheThreshold
    then [BuildReport(fs, path)]
    else []
  }

  function DartToolItems(fs: Node, path: Path, name: string): seq<CleanableItem> {
    if name == ".dart_tool" && SizeAt(fs, path) > EditorCacheThreshold
    then [CleanableItem(path, SizeAt(fs, path), "Flutter", ".dart_tool: " + Base(Parent(path)), Safe)]
    else []
  }

  /** The items ScanFlutter's walk callback appends for the entry `n` at
      `path` and everything below it, as the code is written: the prune test
      comes before the build and .dart_tool tests. */
  function FlutterWalk(fs: Node, path: Path, n: Node): seq<CleanableItem>
    decreases n
  {
    match n
    case Dir(name, children) =>
      if Pruned(name) then []
      else BuildItems(fs, path, name) + DartToolItems(fs, path, name) + FlutterWalkAll(fs, path, children)
    case _ => []
  }

  function FlutterWalkAll(fs: Node, dir: Path, ns: seq<Node>): seq<CleanableItem>
    decreases ns
  {
    if ns == [] then []
    else FlutterWalkAll(fs, dir, ns[..|ns| - 1]) + FlutterWalk(fs, dir + [ns[|ns| - 1].name], ns[|ns| - 1])
  }

  /** The .dart_tool test of the walk callback. */
  method ReportDartTool(fs: Node, path: Path) returns (results: seq<CleanableItem>)
    ensures results == DartToolItems(fs, path, ".dart_tool")
  {
    results := [];
    var size := GetDirSize(fs, path);
    if size > EditorCacheThreshold {
      results := [CleanableItem(path, size, "Flutter", ".dart_tool: " + Base(Parent(path)), Safe)];
    }
  }

  /** ScanFlutter's walk callback for one directory: a pruned name asks the
      walk to skip it; otherwise the build and .dart_tool tests run. */
  method VisitDir(fs: Node, path: Path, name: string) returns (found: seq<CleanableItem>, skipDir: bool)
    ensures skipDir == Pruned(name)
    ensures found == if skipDir then [] else BuildItems(fs, path, name) + DartToolItems(fs, path, name)
  {
    found := [];
    if Pruned(name) {
      return found, true;
    }
    skipDir := false;
    if name == "build" {
      if Exists(fs, Parent(path) + [PubspecName]) {
        var size := GetDirSize(fs, path);
        if size > LargeCacheThreshold {
          found := found + [CleanableItem(path, size, "Flutter", "Build directory: " + Base(Parent(path)), Safe)];
        }
      }
    }
    if name == ".dart_tool" {
      var dartTool := ReportDartTool(fs, path);
      found := found + dartTool;
    }
  }

  /** filepath.Walk driving the callback: files and entries that error
      contribute nothing, a skipped directory is not entered, the entries of
      any other directory are walked in order. */
  method WalkFlutter(fs: Node, path: Path, n: Node) returns (results: seq<CleanableItem>)
    ensures results == FlutterWalk(fs, path, n)
    decreases n
  {
    if !n.Dir? {
      return [];
    }
    var skipDir;
    results, skipDir := VisitDir(fs, path, n.name);
    if skipDir {
      return;
    }
    var below := WalkChildren(fs, path, n.children);
    results := results + below;
  }

  /** The walk over the entries of a directory that is entered, in order. */
  method WalkChildren(fs: Node, dir: Path, children: seq<Node>) returns (results: seq<CleanableItem>)
    ensures results == FlutterWalkAll(fs, dir, children)
    decreases children
  {
    results := [];
    for i := 0 to |children|
      invariant results == FlutterWalkAll(fs, dir, children[..i])
    {
      var child := children[i];
      var sub := WalkFlutter(fs, dir + [child.name], child);
      assert children[..i + 1][..i] == children[..i];
      results := results + sub;
    }
    assert children[..|children|] == children;
  }

  /** What the walk reports, by induction over the tree: only `build`
      directories whose parent holds pubspec.yaml and whose size is above
      100 MiB, never a ".dart_tool: " item, and never anything at or below a
      hidden or node_modules directory. */
  predicate WalkItemOk(fs: Node, root: Path, it: CleanableItem) {
    && root <= it.path
    && (forall k :: |root| <= k < |it.path| ==> !Pruned(it.path[k]))
    && it.path != [] && Base(it.path) == "build"
    && Exists(fs, Parent(it.path) + [PubspecName])
    && it.size == SizeAt(fs, it.path) && it.size > LargeCacheThreshold
    && it.category == "Flutter" && it.level == Safe
    && it.description == "Build directory: " + Base(Parent(it.path))
  }

  /** `q` leads from `n` to a directory named `build` (the walk callback's
      `info.IsDir() && info.Name() == "build"`). */
  ghost predicate BuildDirBelow(n: Node, q: Path) {
    exists m :: Reaches(n, q, m) && m.Dir? && m.name == "build"
  }

  lemma {:induction false} FlutterWalkSound(fs: Node, path: Path, n: Node)
    requires path != [] && Base(path) == n.name
    ensures forall it :: it in FlutterWalk(fs, path, n) ==>
      n.Dir? && !Pruned(n.name) && WalkItemOk(fs, path, it) && BuildDirBelow(n, it.path[|path|..])
    decreases n
  {
    match n
    case Dir(name, children) =>
      if !Pruned(name) {
        FlutterWalkAllSound(fs, path, children);
        BuildItemsOk(fs, path, name);
        assert !Pruned(name) ==> DartToolItems(fs, path, name) == [];
        forall it | it in FlutterWalk(fs, path, n)
          ensures BuildDirBelow(n, it.path[|path|..])
        {
          var q := it.path[|path|..];
          if it in BuildItems(fs, path, name) {
            assert q == [] && Reaches(n, q, n);
          } else {
            assert it in FlutterWalkAll(fs, path, children);
            var c :| c in children && c.name == it.path[|path|] && BuildDirBelow(c, it.path[|path| + 1..]);
            var m :| Reaches(c, it.path[|path| + 1..], m) && m.Dir? && m.name == "build";
            assert q[0] == c.name && q[1..] == it.path[|path| + 1..];
            assert Reaches(n, q, m);
          }
        }
      }
    case _ =>
  }

  /** A build item is reported at the walked path itself, for a directory
      named `build`. */
  lemma BuildItemsOk(fs: Node, path: Path, name: string)
    requires path != [] && Base(path) == name && !Pruned(name)
    ensures forall it :: it in BuildItems(fs, path, name) ==>
      WalkItemOk(fs, path, it) && it.path == path && name == "build"
  {
  }

  lemma {:induction false} FlutterWalkAllSound(fs: Node, dir: Path, ns: seq<Node>)
    ensures forall it :: it in FlutterWalkAll(fs, dir, ns) ==>
      WalkItemOk(fs, dir, it) && |it.path| > |dir| &&
      exists c :: c in ns && c.name == it.path[|dir|] && BuildDirBelow(c, it.path[|dir| + 1..])
    decreases ns
  {
    if ns != [] {
      var init := ns[..|ns| - 1];
      var last := ns[|ns| - 1];
      FlutterWalkAllSound(fs, dir, init);
      FlutterWalkSound(fs, dir + [last.name], last);
      forall it | it in FlutterWalkAll(fs, dir, ns)
        ensures WalkItemOk(fs, dir, it) && |it.path| > |dir|
        ensures exists c :: c in ns && c.name == it.path[|dir|] && BuildDirBelow(c, it.path[|dir| + 1..])
      {
        if it !in FlutterWalkAll(fs, dir, init) {
          assert it in FlutterWalk(fs, dir + [last.name], last);
          assert (dir + [last.name]) <= it.path;
          assert it.path[|dir|] == last.name;
          assert it.path[|dir + [last.name]|..] == it.path[|dir| + 1..];
          assert last in ns;
        } else {
          var c :| c in init && c.name == it.path[|dir|] && BuildDirBelow(c, it.path[|dir| + 1..]);
          assert c in ns;
        }
      }
    }
  }

  /** Whatever the walk of one entry of a listing reports, the walk of the
      whole listing reports too. */
  lemma {:induction false} WalkAllContains(fs: Node, dir: Path, ns: seq<Node>, i: nat)
    requires i < |ns|
    ensures forall it :: it in FlutterWalk(fs, dir + [ns[i].name], ns[i]) ==> it in FlutterWalkAll(fs, dir, ns)
    decreases |ns|
  {
    if i < |ns| - 1 {
      var init := ns[..|ns| - 1];
      assert init[i] == ns[i];
      WalkAllContains(fs, dir, init, i);
    }
  }

  /** The walk reports every `build` directory it reaches: one that `q` names
      below `n`, through directories none of which is pruned, with a
      pubspec.yaml beside it and more than 100 MiB inside. */
  lemma {:induction false} FlutterWalkComplete(fs: Node, path: Path, n: Node, q: Path)
    requires n.Dir? && !Pruned(n.name)
    requires forall k :: 0 <= k < |q| ==> !Pruned(q[k])
    requires Lookup(n, q).Some? && Lookup(n, q).value.Dir? && Lookup(n, q).value.name == "build"
    requires Exists(fs, Parent(path + q) + [PubspecName]) && SizeAt(fs, path + q) > LargeCacheThreshold
    ensures BuildReport(fs, path + q) in FlutterWalk(fs, path, n)
    decreases |q|
  {
    if q == [] {
      assert path + q == path;
      assert BuildItems(fs, path, n.name) == [BuildReport(fs, path)];
    } else {
      var c := FindChild(n.children, q[0]).value;
      assert Lookup(n, q) == Lookup(c, q[1..]);
      assert c.Dir?;
      assert forall k :: 0 <= k < |q[1..]| ==> q[1..][k] == q[k + 1];
      assert path + [q[0]] + q[1..] == path + q;
      FlutterWalkComplete(fs, path + [q[0]], c, q[1..]);
      var i :| 0 <= i < |n.children| && n.children[i] == c;
      WalkAllContains(fs, path, n.children, i);
    }
  }

  /** An empty base path means ~/Documents. */
  function FlutterBase(env: Env, basePath: Path): (base: Path)
    ensures base != []
  {
    if basePath == [] then env.home + ["Documents"] else basePath
  }

  /** The walk of the base directory (nothing when it cannot be stat'ed),
      followed by the global pub cache. */
  function FlutterItems(fs: Node, env: Env, basePath: Path): seq<CleanableItem> {
    var base := FlutterBase(env, basePath);
    (match Lookup(fs, base)
     case Some(root) => FlutterWalk(fs, base, root)
     case None => [])
    + RuleItem(fs, PubCacheRule(env), LargeCacheThreshold)
  }

  method ScanFlutter(fs: Node, env: Env, basePath: Path) returns (results: seq<CleanableItem>)
    ensures results == FlutterItems(fs, env, basePath)
  {
    var base := basePath;
    if base == [] {
      base := env.home + ["Documents"];
    }
    results := [];
    match Lookup(fs, base) {
      case Some(root) =>
        results := WalkFlutter(fs, base, root);
      case None =>
    }
    var pubCache := env.home + [".pub-cache"];
    if Exists(fs, pubCache) {
      var size := GetDirSize(fs, pubCache);
      if size > LargeCacheThreshold {
        results := results + [CleanableItem(pubCache, size, "Flutter", "Pub package cache", Caution)];
      }
    }
  }

  /** Every Flutter item is either a build directory as WalkItemOk describes
      it, below the base directory, whose path reaches a directory in the tree,
      or the pub cache; none is a .dart_tool directory, because the
      hidden-directory prune runs before that test. */
  lemma FlutterItemsProps(fs: Node, env: Env, basePath: Path)
    ensures forall it :: it in FlutterItems(fs, env, basePath) ==>
      it.category == "Flutter" && it.size > LargeCacheThreshold && !(".dart_tool: " <= it.description) &&
      ((WalkItemOk(fs, FlutterBase(env, basePath), it) && BuildDirBelow(fs, it.path)) ||
       it == ItemFor(PubCacheRule(env), SizeAt(fs, env.home + [".pub-cache"])))
  {
    var base := FlutterBase(env, basePath);
    var walked := match Lookup(fs, base) case Some(root) => FlutterWalk(fs, base, root) case None => [];
    var pub := RuleItem(fs, PubCacheRule(env), LargeCacheThreshold);
    assert FlutterItems(fs, env, basePath) == walked + pub;
    forall it | it in walked
      ensures WalkItemOk(fs, base, it) && BuildDirBelow(fs, it.path)
    {
      WalkedBuildDir(fs, base, it);
    }
    forall it | it in FlutterItems(fs, env, basePath)
      ensures it.category == "Flutter" && it.size > LargeCacheThreshold && !(".dart_tool: " <= it.description)
      ensures (WalkItemOk(fs, base, it) && BuildDirBelow(fs, it.path)) ||
              it == ItemFor(PubCacheRule(env), SizeAt(fs, env.home + [".pub-cache"]))
    {
      if it in walked {
        assert it.description[0] == 'B';
      } else {
        assert it in pub;
        assert it.description[0] == 'P';
      }
    }
  }

  /** An item of the walk from the entry at `base` names a build directory
      of the whole tree. */
  lemma WalkedBuildDir(fs: Node, base: Path, it: CleanableItem)
    requires base != [] && Lookup(fs, base).Some?
    requires it in FlutterWalk(fs, base, Lookup(fs, base).value)
    ensures WalkItemOk(fs, base, it) && BuildDirBelow(fs, it.path)
  {
    var root := Lookup(fs, base).value;
    LookupName(fs, base);
    FlutterWalkSound(fs, base, root);
    var q := it.path[|base|..];
    var m :| Reaches(root, q, m) && m.Dir? && m.name == "build";
    LookupReaches(fs, base);
    ReachesJoin(fs, base, root, q, m);
    assert base + q == it.path;
  }

  /** ScanFlutter reports every qualifying build directory below the base
      directory: one that `q` names from the base, through no pruned
      directory, with a pubspec.yaml beside it and more than 100 MiB inside. */
  lemma FlutterItemsComplete(fs: Node, env: Env, basePath: Path, q: Path)
    requires !Pruned(Base(FlutterBase(env, basePath)))
    requires forall k :: 0 <= k < |q| ==> !Pruned(q[k])
    requires Lookup(fs, FlutterBase(env, basePath) + q).Some?
    requires Lookup(fs, FlutterBase(env, basePath) + q).value.Dir?
    requires Lookup(fs, FlutterBase(env, basePath) + q).value.name == "build"
    requires Exists(fs, Parent(FlutterBase(env, basePath) + q) + [PubspecName])
    requires SizeAt(fs, FlutterBase(env, basePath) + q) > LargeCacheThreshold
    ensures BuildReport(fs, FlutterBase(env, basePath) + q) in FlutterItems(fs, env, basePath)
  {
    var base := FlutterBase(env, basePath);
    LookupJoin(fs, base, q);
    var root := Lookup(fs, base).value;
    LookupName(fs, base);
    assert root.Dir?;
    FlutterWalkComplete(fs, base, root, q);
  }

  /** The walk with the .dart_tool test moved before the prune, so that the
      .dart_tool directories it was written to find are reported (and, being
      hidden, still not entered). */
  function FixedFlutterWalk(fs: Node, path: Path, n: Node): seq<CleanableItem>
    decreases n
  {
    match n
    case Dir(name, children) =>
      DartToolItems(fs, path, name) +
      (if Pruned(name) then [] else BuildItems(fs, path, name) + FixedFlutterWalkAll(fs, path, children))
    case _ => []
  }

  function FixedFlutterWalkAll(fs: Node, dir: Path, ns: seq<Node>): seq<CleanableItem>
    decreases ns
  {
    if ns == [] then []
    else FixedFlutterWalkAll(fs, dir, ns[..|ns| - 1]) + FixedFlutterWalk(fs, dir + [ns[|ns| - 1].name], ns[|ns| - 1])
  }

  function DartToolItem(fs: Node, path: Path): CleanableItem {
    CleanableItem(path, SizeAt(fs, path), "Flutter", ".dart_tool: " + Base(Parent(path)), Safe)
  }

  /** A project's .dart_tool directory above 50 MiB: the corrected walk
      reports it, the walk as written does not. */
  lemma {:induction false} DartToolReportedOnlyWhenFixed(fs: Node, dir: Path, ns: seq<Node>, k: nat)
    requires k < |ns| && ns[k].Dir? && ns[k].name == ".dart_tool"
    requires SizeAt(fs, dir + [".dart_tool"]) > EditorCacheThreshold
    ensures DartToolItem(fs, dir + [".dart_tool"]) in FixedFlutterWalkAll(fs, dir, ns)
    ensures DartToolItem(fs, dir + [".dart_tool"]) !in FlutterWalkAll(fs, dir, ns)
    decreases |ns|
  {
    FlutterWalkAllSound(fs, dir, ns);
    var item := DartToolItem(fs, dir + [".dart_tool"]);
    if k < |ns| - 1 {
      DartToolReportedOnlyWhenFixed(fs, dir, ns[..|ns| - 1], k);
    } else {
      assert FixedFlutterWalk(fs, dir + [".dart_tool"], ns[k]) == [item];
    }
  }

  predicate IsDartToolItem(it: CleanableItem) {
    ".dart_tool: " <= it.description
  }

  /** The items that are not .dart_tool reports, in order. */
  function WithoutDartTool(items: seq<CleanableItem>): seq<CleanableItem> {
    if items == [] then []
    else
      WithoutDartTool(items[..|items| - 1])
      + (if IsDartToolItem(items[|items| - 1]) then [] else [items[|items| - 1]])
  }

  lemma {:induction false} WithoutDartToolAppend(a: seq<CleanableItem>, b: seq<CleanableItem>)
    ensures WithoutDartTool(a + b) == WithoutDartTool(a) + WithoutDartTool(b)
    decreases |b|
  {
    if b == [] {
      assert a + b == a;
    } else {
      WithoutDartToolAppend(a, b[..|b| - 1]);
      assert (a + b)[..|a + b| - 1] == a + b[..|b| - 1];
    }
  }

  lemma DartToolDropped(fs: Node, path: Path, name: string)
    ensures WithoutDartTool(DartToolItems(fs, path, name)) == []
  {
    var dart := DartToolItems(fs, path, name);
    if dart != [] {
      assert dart[..0] == [];
    }
  }

  lemma BuildKept(fs: Node, path: Path, name: string)
    ensures WithoutDartTool(BuildItems(fs, path, name)) == BuildItems(fs, path, name)
  {
    var build := BuildItems(fs, path, name);
    if build != [] {
      assert build[..0] == [];
      assert build[0].description[0] == 'B';
    }
  }

  /** A directory the walk enters is never .dart_tool, which is hidden. */
  lemma UnprunedIsNotDartTool(fs: Node, path: Path, name: string)
    requires !Pruned(name)
    ensures DartToolItems(fs, path, name) == []
  {
    DartToolIsPruned();
  }

  lemma DartToolIsPruned()
    ensures Pruned(".dart_tool")
  {
    assert ".dart_tool"[0] == '.';
  }

  /** The correction only adds .dart_tool reports: without them, the
      corrected walk is the walk as written. */
  lemma {:induction false} FixOnlyAddsDartTool(fs: Node, path: Path, n: Node)
    ensures WithoutDartTool(FixedFlutterWalk(fs, path, n)) == FlutterWalk(fs, path, n)
    decreases n
  {
    match n
    case Dir(name, children) =>
      if Pruned(name) {
        FixPrunedDir(fs, path, name, children);
      } else {
        FixOnlyAddsDartToolAll(fs, path, children);
        FixEnteredDir(fs, path, name, children);
      }
    case _ =>
  }

  /** At a pruned directory the fixed walk reports at most its .dart_tool item. */
  lemma FixPrunedDir(fs: Node, path: Path, name: string, children: seq<Node>)
    requires Pruned(name)
    ensures WithoutDartTool(FixedFlutterWalk(fs, path, Dir(name, children))) == FlutterWalk(fs, path, Dir(name, children))
  {
    var dart := DartToolItems(fs, path, name);
    DartToolDropped(fs, path, name);
    assert FixedFlutterWalk(fs, path, Dir(name, children)) == dart + [];
    assert dart + [] == dart;
  }

  /** At an entered directory the two walks differ only below it. */
  lemma FixEnteredDir(fs: Node, path: Path, name: string, children: seq<Node>)
    requires !Pruned(name)
    requires WithoutDartTool(FixedFlutterWalkAll(fs, path, children)) == FlutterWalkAll(fs, path, children)
    ensures WithoutDartTool(FixedFlutterWalk(fs, path, Dir(name, children))) == FlutterWalk(fs, path, Dir(name, children))
  {
    UnprunedIsNotDartTool(fs, path, name);
    var build := BuildItems(fs, path, name);
    var fixedAll := FixedFlutterWalkAll(fs, path, children);
    var all := FlutterWalkAll(fs, path, children);
    BuildKept(fs, path, name);
    WithoutDartToolAppend(build, fixedAll);
    assert FixedFlutterWalk(fs, path, Dir(name, children)) == [] + (build + fixedAll);
    assert [] + (build + fixedAll) == build + fixedAll;
    assert FlutterWalk(fs, path, Dir(name, children)) == build + [] + all;
    assert build + [] + all == build + all;
  }

  lemma {:induction false} FixOnlyAddsDartToolAll(fs: Node, dir: Path, ns: seq<Node>)
    ensures WithoutDartTool(FixedFlutterWalkAll(fs, dir, ns)) == FlutterWalkAll(fs, dir, ns)
    decreases ns
  {
    if ns != [] {
      var last := ns[|ns| - 1];
      FixOnlyAddsDartToolAll(fs, dir, ns[..|ns| - 1]);
      FixOnlyAddsDartTool(fs, dir + [last.name], last);
      WithoutDartToolAppend(FixedFlutterWalkAll(fs, dir, ns[..|ns| - 1]), FixedFlutterWalk(fs, dir + [last.name], last));
    }
  }

  function ScanSimulators(): (results: seq<CleanableItem>)
    ensures results == []
  {
    []
  }

  /** The `scan` and `clean` commands' discovery: every category in order. */
  function AllItems(fs: Node, env: Env): seq<CleanableItem> {
    AntigravityItems(fs, env) + FlutterItems(fs, env, []) + XcodeItems(fs, env)
    + AndroidItems(fs, env) + VSCodeItems(fs, env)
  }

  method ScanAll(fs: Node, env: Env) returns (results: seq<CleanableItem>)
    ensures results == AllItems(fs, env)
  {
    var antigravity := ScanAntigravity(fs, env);
    var flutter := ScanFlutter(fs, env, []);
    var xcode := ScanXcode(fs, env);
    var android := ScanAndroid(fs, env);
    var vscode := ScanVSCode(fs, env);
    results := antigravity + flutter + xcode + android + vscode;
  }

  /** Each item is a snapshot of an existing path: its size is that path's
      size at scan time and is positive. */
  predicate Measured(fs: Node, items: seq<CleanableItem>) {
    forall it :: it in items ==> it.size > 0 && it.size == SizeAt(fs, it.path) && Exists(fs, it.path)
  }

  lemma RuleItemsMeasured(fs: Node, rules: seq<Rule>, threshold: nat)
    ensures Measured(fs, RuleItems(fs, rules, threshold))
  {
    RuleItemsSound(fs, rules, threshold);
  }

  /** Every item any scan reports exists, is non-empty, and carries the size
      of its path. */
  lemma AllItemsMeasured(fs: Node, env: Env)
    ensures Measured(fs, AllItems(fs, env))
  {
    RuleItemsMeasured(fs, AntigravityRules(env), AntigravityThreshold);
    RuleItemsMeasured(fs, XcodeRules(env), LargeCacheThreshold);
    RuleItemsMeasured(fs, AndroidRules(env), LargeCacheThreshold);
    RuleItemsMeasured(fs, VSCodeRules(env), EditorCacheThreshold);
    FlutterItemsMeasured(fs, env, []);
    AvdItemsMeasured(fs, env);
    var a, f, x, d, v := AntigravityItems(fs, env), FlutterItems(fs, env, []), XcodeItems(fs, env),
                         AndroidItems(fs, env), VSCodeItems(fs, env);
    MeasuredAppend(fs, RuleItems(fs, AndroidRules(env), LargeCacheThreshold), AvdItems(fs, env));
    MeasuredAppend(fs, a, f);
    MeasuredAppend(fs, a + f, x);
    MeasuredAppend(fs, a + f + x, d);
    MeasuredAppend(fs, a + f + x + d, v);
  }

  lemma MeasuredAppend(fs: Node, a: seq<CleanableItem>, b: seq<CleanableItem>)
    requires Measured(fs, a) && Measured(fs, b)
    ensures Measured(fs, a + b)
  {
  }

  /** A size above zero is the size of an existing path. */
  lemma PositiveSizeExists(fs: Node, p: Path)
    requires SizeAt(fs, p) > 0
    ensures Exists(fs, p)
  {
  }

  lemma FlutterItemsMeasured(fs: Node, env: Env, basePath: Path)
    ensures Measured(fs, FlutterItems(fs, env, basePath))
  {
    FlutterItemsProps(fs, env, basePath);
    forall it | it in FlutterItems(fs, env, basePath)
      ensures it.size > 0 && it.size == SizeAt(fs, it.path) && Exists(fs, it.path)
    {
      PositiveSizeExists(fs, it.path);
    }
  }

  lemma AvdItemsMeasured(fs: Node, env: Env)
    ensures Measured(fs, AvdItems(fs, env))
  {
    match Lookup(fs, AvdDir(env)) {
      case Some(Dir(_, entries)) =>
        AvdEntryItemsProps(fs, AvdDir(env), entries);
        forall it | it in AvdItems(fs, env)
          ensures it.size > 0 && it.size == SizeAt(fs, it.path) && Exists(fs, it.path)
        {
          PositiveSizeExists(fs, it.path);
        }
      case _ =>
    }
  }
}
