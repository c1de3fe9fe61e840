/** The operating environment the cleaner runs against, as values: the
    filesystem is a tree, paths are sequences of segments, and the platform
    and the environment variables the rule tables read are parameters. */
module Host {

  datatype Option<T> = None | Some(value: T)

  /** A path as the sequence of its segments. `[]` stands for the empty path
      string, so joining with it (as filepath.Join does with "") changes nothing. */
  type Path = seq<string>

  /** The value of runtime.GOOS, reduced to the cases the scanner tells apart. */
  datatype Platform = Darwin | Windows | Linux | OtherPlatform

  /** What the scanner reads from the process: the platform, the home
      directory, and the APPDATA and LOCALAPPDATA variables (an unset variable
      is the empty path). */
  datatype Env = Env(platform: Platform, home: Path, appData: Path, localAppData: Path)

  /** One filesystem entry. `Unreadable` is an entry for which a directory walk
      hands its callback an error (the entry cannot be stat'ed or listed). */
  datatype Node =
    | File(name: string, size: nat)
    | Dir(name: string, children: seq<Node>)
    | Unreadable(name: string)

  /** The first child with the given name. */
  function FindChild(children: seq<Node>, name: string): (r: Option<Node>)
    ensures r.Some? ==> r.value in children && r.value.name == name
    ensures r.None? ==> forall c :: c in children ==> c.name != name
  {
    if children == [] then None
    else if children[0].name == name then Some(children[0])
    else FindChild(children[1..], name)
  }

  /** Some element of a non-empty set: the next key of a Go map iteration,
      whose order is unspecified. */
  method Pick<T>(s: set<T>) returns (x: T)
    requires s != {}
    ensures x in s
  {
    x :| x in s;
  }

  /** The entry a path names, starting from the root of the tree. A path
      through a file or through an unreadable directory names nothing. */
  function Lookup(root: Node, p: Path): Option<Node>
    decreases |p|
  {
    if p == [] then Some(root)
    else match root
      case Dir(_, children) =>
        (match FindChild(children, p[0])
         case Some(child) => Lookup(child, p[1..])
         case None => None)
      case _ => None
  }

  /** The entry a non-empty path names carries the path's last segment as its name. */
  lemma {:induction false} LookupName(root: Node, p: Path)
    requires p != [] && Lookup(root, p).Some?
    ensures Lookup(root, p).value.name == p[|p| - 1]
    decreases |p|
  {
    var child := FindChild(root.children, p[0]).value;
    if |p| > 1 {
      LookupName(child, p[1..]);
    }
  }

  /** Looking up a joined path is looking up its second part from the
      entry the first part names. */
  lemma {:induction false} LookupJoin(root: Node, p: Path, q: Path)
    ensures Lookup(root, p + q) == match Lookup(root, p)
      case Some(n) => Lookup(n, q)
      case None => None
    decreases |p|
  {
    if p == [] {
      assert p + q == q;
    } else {
      assert (p + q)[0] == p[0] && (p + q)[1..] == p[1..] + q;
      if root.Dir? {
        match FindChild(root.children, p[0])
        case Some(child) => LookupJoin(child, p[1..], q);
        case None =>
      }
    }
  }

  /** os.Stat(path) succeeds. */
  /** `m` is an entry that `p` names below `root`, following at each step
      any child with the segment's name (not only the first one). */
  ghost predicate Reaches(root: Node, p: Path, m: Node)
    decreases |p|
  {
    if p == [] then m == root
    else root.Dir? && exists c :: c in root.children && c.name == p[0] && Reaches(c, p[1..], m)
  }

  /** The entry `Lookup` finds is one the path reaches. */
  lemma {:induction false} LookupReaches(root: Node, p: Path)
    requires Lookup(root, p).Some?
    ensures Reaches(root, p, Lookup(root, p).value)
    decreases |p|
  {
    if p != [] {
      var child := FindChild(root.children, p[0]).value;
      LookupReaches(child, p[1..]);
    }
  }

  /** Reaching `b` by `p` and then `m` from `b` by `q` reaches `m` by `p + q`. */
  lemma {:induction false} ReachesJoin(a: Node, p: Path, b: Node, q: Path, m: Node)
    requires Reaches(a, p, b) && Reaches(b, q, m)
    ensures Reaches(a, p + q, m)
    decreases |p|
  {
    if p == [] {
      assert p + q == q;
    } else {
      var c :| c in a.children && c.name == p[0] && Reaches(c, p[1..], b);
      ReachesJoin(c, p[1..], b, q, m);
      assert (p + q)[0] == p[0] && (p + q)[1..] == p[1..] + q;
    }
  }

  /** Go's `exists`: whether `os.Stat` of the path succeeds. */
  predicate Exists(root: Node, p: Path) {
    Lookup(root, p).Some?
  }

  /** filepath.Base: the last segment; "." for the empty path. */
  function Base(p: Path): string {
    if p == [] then "." else p[|p| - 1]
  }

  /** filepath.Dir: every segment but the last; the empty path for a
      one-segment path, which filepath.Join treats like ".". */
  function Parent(p: Path): (r: Path)
    ensures p != [] ==> p == r + [Base(p)]
  {
    if p == [] then [] else p[..|p| - 1]
  }

  /** filepath.Ext on one name: the suffix from the last '.', provided no
      separator comes after it; "" when there is none. */
  function Ext(name: string): string {
    if name == [] then ""
    else
      var last := name[|name| - 1];
      if last == '/' then ""
      else if last == '.' then "."
      else
        var e := Ext(name[..|name| - 1]);
        if e == "" then "" else e + [last]
  }

  predicate EndsWith(s: string, suffix: string) {
    |s| >= |suffix| && s[|s| - |suffix|..] == suffix
  }

  /** For an extension shape (a dot followed by neither dots nor separators),
      Ext yields it exactly when the name ends with it. */
  lemma {:induction false} ExtMatchesSuffix(name: string, ext: string)
    requires |ext| >= 1 && ext[0] == '.'
    requires forall k :: 1 <= k < |ext| ==> ext[k] != '.' && ext[k] != '/'
    ensures Ext(name) == ext <==> EndsWith(name, ext)
  {
    if name == [] {
    } else {
      var last := name[|name| - 1];
      var init := name[..|name| - 1];
      if last == '/' || last == '.' {
        if EndsWith(name, ext) {
          assert name[|name| - 1] == ext[|ext| - 1];
        }
      } else if |ext| == 1 {
        if Ext(name) != "" {
          assert Ext(name)[|Ext(name)| - 1] == last;
        }
      } else {
        var shorter := ext[..|ext| - 1];
        ExtMatchesSuffix(init, shorter);
        if EndsWith(name, ext) {
          assert init[|init| - |shorter|..] == shorter;
        }
        if EndsWith(init, shorter) && last == ext[|ext| - 1] {
          assert name[|name| - |ext|..] == init[|init| - |shorter|..] + [last];
        }
        if Ext(name) == ext {
          assert Ext(init) == shorter;
        }
      }
    }
  }

  /** The AVD filter of the scanner: Ext(name) == ".avd" exactly when the
      name ends with ".avd". */
  lemma AvdExtension(name: string)
    ensures Ext(name) == ".avd" <==> EndsWith(name, ".avd")
  {
    ExtMatchesSuffix(name, ".avd");
  }
}
