/** rsyncbackup.py, the snapshot store: pathlib paths as the script builds
    them, the directory tree of the backup location as a set of paths, and
    RsyncBackup.__get_old_backup, which picks the newest or the oldest dated
    directory of a server root. */
module SnapshotStore {
  import opened PyBase

  // ---- pathlib paths ----

  /** A normalised pathlib path: rooted or not, and its parts. */
  datatype FsPath = FsPath(absolute: bool, parts: seq<string>)

  /** The parts of a path string: the pieces between slashes, empty pieces
      and "." left out. */
  function PathParts(pieces: seq<string>): (r: seq<string>)
    ensures forall k :: 0 <= k < |r| ==> r[k] in pieces && r[k] != "" && r[k] != "."
    decreases |pieces|
  {
    if |pieces| == 0 then []
    else (if pieces[0] == "" || pieces[0] == "." then [] else [pieces[0]]) + PathParts(pieces[1..])
  }

  /** `Path(s)`. */
  function ParsePath(s: string): FsPath
  {
    FsPath(|s| > 0 && s[0] == '/', PathParts(SplitOn(s, '/')))
  }

  /** `str(p)`. */
  function Render(p: FsPath): string
  {
    if p.absolute then "/" + Join(p.parts, "/")
    else if p.parts == [] then "."
    else Join(p.parts, "/")
  }

  /** `a / name` for a name that is a single path part. */
  function Child(a: FsPath, name: string): (r: FsPath)
    ensures r.absolute == a.absolute && |r.parts| == |a.parts| + 1
  {
    FsPath(a.absolute, a.parts + [name])
  }

  /** `a / b`: an absolute `b` replaces `a`. */
  function Div(a: FsPath, b: FsPath): FsPath
  {
    if b.absolute then b else FsPath(a.absolute, a.parts + b.parts)
  }

  /** `p.relative_to('/')`: the parts of an absolute path without its
      root; a relative path raises a ValueError. */
  function RelativeToRoot(p: FsPath): (r: Result<FsPath>)
    ensures r.Ok? <==> p.absolute
    ensures r.Ok? ==> !r.value.absolute && r.value.parts == p.parts
  {
    if p.absolute then Ok(FsPath(false, p.parts))
    else Err(ValueError("'" + Render(p) + "' is not in the subpath of '/'"))
  }

  /** `q` is `p` itself or lies below it. */
  predicate Under(p: FsPath, q: FsPath)
  {
    q.absolute == p.absolute && |p.parts| <= |q.parts| && q.parts[..|p.parts|] == p.parts
  }

  // ---- the directory tree ----

  /** The directories that exist, as a set of paths. */
  type Tree = set<FsPath>

  /** `p` and every directory above it. */
  function Ancestors(p: FsPath): (r: set<FsPath>)
    ensures p in r
    ensures forall q :: q in r ==> q.absolute == p.absolute && |q.parts| <= |p.parts| && Under(q, p)
  {
    var r := set k | 0 <= k <= |p.parts| :: FsPath(p.absolute, p.parts[..k]);
    assert p.parts[..|p.parts|] == p.parts;
    r
  }

  /** `p.mkdir(parents=True)`: the directory and all missing parents. */
  function MakeDirs(tree: Tree, p: FsPath): (r: Tree)
    ensures tree <= r && p in r
    ensures forall q :: q in r ==> q in tree || Under(q, p)
  {
    tree + Ancestors(p)
  }

  /** The removal of the entry `p`: the entry disappears from its
      directory, and with it everything reached through it. */
  function RemoveEntry(tree: Tree, p: FsPath): (r: Tree)
    ensures r <= tree
    ensures forall q :: q in tree ==> (q in r <==> !Under(p, q))
  {
    set q | q in tree && !Under(p, q)
  }

  predicate IsChildOf(q: FsPath, dir: FsPath)
  {
    q.absolute == dir.absolute && |q.parts| == |dir.parts| + 1 && q.parts[..|dir.parts|] == dir.parts
  }

  /** The names `os.listdir(dir)` reports (directories only). */
  function ChildNames(tree: Tree, dir: FsPath): (r: set<string>)
    ensures forall n :: n in r <==> Child(dir, n) in tree
  {
    var r := set q | q in tree && IsChildOf(q, dir) :: q.parts[|dir.parts|];
    assert forall n :: Child(dir, n) in tree ==> n in r by {
      forall n | Child(dir, n) in tree ensures n in r {
        var q := Child(dir, n);
        assert IsChildOf(q, dir) && q.parts[|dir.parts|] == n;
      }
    }
    assert forall n :: n in r ==> Child(dir, n) in tree by {
      forall n | n in r ensures Child(dir, n) in tree {
        var q :| q in tree && IsChildOf(q, dir) && q.parts[|dir.parts|] == n;
        assert q.parts == dir.parts + [n];
        assert q == Child(dir, n);
      }
    }
    r
  }

  /** Removing the entry `dir/name` takes exactly that name out of the
      listing of `dir`. */
  lemma ChildNamesAfterRemoval(tree: Tree, dir: FsPath, name: string)
    ensures ChildNames(RemoveEntry(tree, Child(dir, name)), dir) == ChildNames(tree, dir) - {name}
  {
    var after := RemoveEntry(tree, Child(dir, name));
    forall n ensures n in ChildNames(after, dir) <==> n in ChildNames(tree, dir) - {name} {
      var c := Child(dir, name);
      var q := Child(dir, n);
      assert Under(c, q) <==> n == name by {
        if Under(c, q) {
          assert q.parts[..|c.parts|] == q.parts;
          assert q.parts[|dir.parts|] == n && c.parts[|dir.parts|] == name;
        }
        if n == name {
          assert q.parts[..|c.parts|] == q.parts;
        }
      }
    }
  }

  // ---- lexicographic order of names (Python's str comparison) ----

  /** `a <= b` on Python strings: code point by code point, a proper
      prefix first. */
  predicate LexLe(a: string, b: string)
    decreases |a|
  {
    |a| == 0 || (|b| > 0 && (a[0] < b[0] || (a[0] == b[0] && LexLe(a[1..], b[1..]))))
  }

  lemma {:induction false} LexTotal(a: string, b: string)
    ensures LexLe(a, b) || LexLe(b, a)
    decreases |a|
  {
    if |a| > 0 && |b| > 0 && a[0] == b[0] {
      LexTotal(a[1..], b[1..]);
    }
  }

  lemma {:induction false} LexTrans(a: string, b: string, c: string)
    requires LexLe(a, b) && LexLe(b, c)
    ensures LexLe(a, c)
    decreases |a|
  {
    if |a| > 0 && a[0] == b[0] && b[0] == c[0] {
      LexTrans(a[1..], b[1..], c[1..]);
    }
  }

  lemma {:induction false} LexAntisym(a: string, b: string)
    requires LexLe(a, b) && LexLe(b, a)
    ensures a == b
    decreases |a|
  {
    if |a| > 0 {
      LexAntisym(a[1..], b[1..]);
      assert a == [a[0]] + a[1..] && b == [b[0]] + b[1..];
    }
  }

  /** `sorted(names)[-1]`: the greatest name. */
  function MaxLex(names: seq<string>): (m: string)
    requires |names| > 0
    ensures m in names
    ensures forall x :: x in names ==> LexLe(x, m)
    decreases |names|
  {
    if |names| == 1 then
      LexReflexive(names[0]);
      names[0]
    else
      var m := MaxLex(names[1..]);
      assert forall x :: x in names ==> x == names[0] || x in names[1..];
      if LexLe(names[0], m) then m
      else
        LexTotal(names[0], m);
        LexReflexive(names[0]);
        assert forall x :: x in names[1..] ==> LexLe(x, names[0]) by {
          forall x | x in names[1..] ensures LexLe(x, names[0]) {
            LexTrans(x, m, names[0]);
          }
        }
        names[0]
  }

  /** `sorted(names)[0]`: the least name. */
  function MinLex(names: seq<string>): (m: string)
    requires |names| > 0
    ensures m in names
    ensures forall x :: x in names ==> LexLe(m, x)
    decreases |names|
  {
    if |names| == 1 then
      LexReflexive(names[0]);
      names[0]
    else
      var m := MinLex(names[1..]);
      assert forall x :: x in names ==> x == names[0] || x in names[1..];
      if LexLe(m, names[0]) then m
      else
        LexTotal(names[0], m);
        LexReflexive(names[0]);
        assert forall x :: x in names[1..] ==> LexLe(names[0], x) by {
          forall x | x in names[1..] ensures LexLe(names[0], x) {
            LexTrans(names[0], m, x);
          }
        }
        names[0]
  }

  lemma {:induction false} LexReflexive(a: string)
    ensures LexLe(a, a)
    decreases |a|
  {
    if |a| > 0 {
      LexReflexive(a[1..]);
    }
  }

  // ---- __get_old_backup ----

  predicate Distinct(s: seq<string>)
  {
    forall i, j :: 0 <= i < j < |s| ==> s[i] != s[j]
  }

  /** The comprehension of __get_old_backup: the listed names that pass the
      date-format test and are not today's backup date, in listing order. */
  function Candidates(names: seq<string>, validDate: string -> bool, today: string): (c: seq<string>)
    ensures forall x :: x in c <==> x in names && validDate(x) && x != today
    ensures Distinct(names) ==> Distinct(c)
    decreases |names|
  {
    if |names| == 0 then []
    else
      var rest := Candidates(names[1..], validDate, today);
      assert forall x :: x in names <==> x == names[0] || x in names[1..];
      if validDate(names[0]) && names[0] != today then
        assert Distinct(names) ==> names[0] !in names[1..];
        [names[0]] + rest
      else rest
  }

  /** RsyncBackup.__get_old_backup. `listing` is `os.listdir(target_dir)`,
      None when the target is missing or not a directory; `validDate` is
      __is_valid_date_format. */
  function GetOldBackup(listing: Option<seq<string>>, version: string, validDate: string -> bool,
                        today: string, numberOfVersions: int): (r: Option<string>)
    ensures listing.None? ==> r.None?
    ensures r.Some? ==> r.value in listing.value && validDate(r.value) && r.value != today
    ensures listing.Some? && version == "latest" ==>
              (r.Some? <==> |Candidates(listing.value, validDate, today)| > 0)
    ensures version == "latest" && r.Some? ==>
              forall x :: x in Candidates(listing.value, validDate, today) ==> LexLe(x, r.value)
    ensures listing.Some? && version == "oldest" ==>
              (r.Some? <==> |Candidates(listing.value, validDate, today)| > 0
                            && |Candidates(listing.value, validDate, today)| > numberOfVersions)
    ensures version == "oldest" && r.Some? ==>
              forall x :: x in Candidates(listing.value, validDate, today) ==> LexLe(r.value, x)
    ensures version != "latest" && version != "oldest" ==> r.None?
  {
    match listing
    case None => None
    case Some(names) =>
      var dirs := Candidates(names, validDate, today);
      if |dirs| == 0 then None
      else if version == "latest" then Some(MaxLex(dirs))
      else if version == "oldest" && |dirs| > numberOfVersions then Some(MinLex(dirs))
      else None
  }

  // ---- the listing order does not matter ----

  function Elements(s: seq<string>): set<string>
  {
    set x | x in s
  }

  lemma {:induction false} DistinctCard(s: seq<string>)
    requires Distinct(s)
    ensures |Elements(s)| == |s|
    decreases |s|
  {
    if |s| > 0 {
      DistinctCard(s[1..]);
      assert Elements(s) == {s[0]} + Elements(s[1..]);
      assert s[0] !in Elements(s[1..]);
    }
  }

  /** Two duplicate-free listings of the same names give the same
      __get_old_backup answer: `sorted` makes the result independent of
      the order in which os.listdir reports the names. */
  lemma {:induction false} GetOldBackupIgnoresListingOrder(a: seq<string>, b: seq<string>, version: string,
                                                          validDate: string -> bool, today: string, n: int)
    requires Distinct(a) && Distinct(b)
    requires forall x :: x in a <==> x in b
    ensures GetOldBackup(Some(a), version, validDate, today, n) == GetOldBackup(Some(b), version, validDate, today, n)
  {
    var ca := Candidates(a, validDate, today);
    var cb := Candidates(b, validDate, today);
    assert Elements(ca) == Elements(cb);
    DistinctCard(ca);
    DistinctCard(cb);
    if |ca| > 0 {
      var xa, xb := MaxLex(ca), MaxLex(cb);
      assert xa in cb && xb in ca;
      LexAntisym(xa, xb);
      var ya, yb := MinLex(ca), MinLex(cb);
      assert ya in cb && yb in ca;
      LexAntisym(ya, yb);
    }
  }

  /** An ascending sorted list of the candidates ends with MaxLex and
      starts with MinLex: the model's choice is `sorted(dirs)[-1]` and
      `sorted(dirs)[0]`. */
  lemma {:induction false} SortedEnds(c: seq<string>, sorted: seq<string>)
    requires |c| > 0
    requires forall x :: x in sorted <==> x in c
    requires forall i, j :: 0 <= i <= j < |sorted| ==> LexLe(sorted[i], sorted[j])
    ensures |sorted| > 0
    ensures sorted[|sorted| - 1] == MaxLex(c) && sorted[0] == MinLex(c)
  {
    var mx, mn := MaxLex(c), MinLex(c);
    assert c[0] in sorted;
    var last := sorted[|sorted| - 1];
    var i :| 0 <= i < |sorted| && sorted[i] == mx;
    LexAntisym(last, mx);
    var j :| 0 <= j < |sorted| && sorted[j] == mn;
    LexAntisym(sorted[0], mn);
  }

  /** A listing of a set of names: duplicate-free, in some order. */
  ghost function Enumerate(s: set<string>): (r: seq<string>)
    ensures Distinct(r)
    ensures forall x :: x in r <==> x in s
    ensures |r| == |s|
    decreases |s|
  {
    if s == {} then []
    else
      var x :| x in s;
      var rest := Enumerate(s - {x});
      [x] + rest
  }

  /** The dated names of a listing: those that count for retention. */
  function DatedNames(names: set<string>, validDate: string -> bool, today: string): set<string>
  {
    set x | x in names && validDate(x) && x != today
  }

  /** The number of candidates __get_old_backup compares with
      number_of_versions is the number of dated names other than today. */
  lemma CandidateCount(names: set<string>, validDate: string -> bool, today: string)
    ensures |Candidates(Enumerate(names), validDate, today)| == |DatedNames(names, validDate, today)|
  {
    var c := Candidates(Enumerate(names), validDate, today);
    DistinctCard(c);
    assert Elements(c) == DatedNames(names, validDate, today);
  }
}
