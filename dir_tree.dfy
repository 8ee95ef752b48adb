/**
 * The tree printer of hw1_tree: a directory listing drawn with branch
 * glyphs, one line per entry, indented by the depth of the entry, files
 * shown with their size only when they are asked for. The file system is a
 * tree given as a value; the children of a directory are in the order the
 * directory listing returns them.
 */
module DirTree {
  import opened Wrappers
  import opened Strconv
  import Seqs

  datatype Entry = Dir(name: string, children: seq<Entry>) | File(name: string, size: nat)

  // ---------------------------------------------------------------------
  // Sizes, for termination

  function Size(e: Entry): nat
    decreases e
  {
    match e
    case File(_, _) => 1
    case Dir(_, children) => 1 + SizeAll(children)
  }

  function SizeAll(s: seq<Entry>): nat
    decreases s
  {
    if s == [] then 0 else Size(s[0]) + SizeAll(s[1..])
  }

  lemma {:induction false} SizeAt(s: seq<Entry>, k: nat)
    requires k < |s|
    ensures Size(s[k]) <= SizeAll(s)
  {
    if k > 0 {
      SizeAt(s[1..], k - 1);
    }
  }

  // ---------------------------------------------------------------------
  // Leaving out the files

  /** The directories among `s`, in their order. */
  function Dirs(s: seq<Entry>): (r: seq<Entry>)
    ensures forall k :: 0 <= k < |r| ==> r[k].Dir?
  {
    if s == [] then [] else (if s[0].Dir? then [s[0]] else []) + Dirs(s[1..])
  }

  lemma {:induction false} DirsConcat(a: seq<Entry>, b: seq<Entry>)
    ensures Dirs(a + b) == Dirs(a) + Dirs(b)
  {
    if a != [] {
      DirsConcat(a[1..], b);
      assert (a + b)[1..] == a[1..] + b;
    } else {
      assert a + b == b;
    }
  }

  /** Dirs keeps exactly the directories. */
  lemma {:induction false} DirsMembers(s: seq<Entry>, e: Entry)
    ensures e in Dirs(s) <==> e in s && e.Dir?
  {
    if s != [] {
      DirsMembers(s[1..], e);
      assert s == [s[0]] + s[1..];
    }
  }

  lemma {:induction false} DirsOfDirs(s: seq<Entry>)
    requires forall k :: 0 <= k < |s| ==> s[k].Dir?
    ensures Dirs(s) == s
  {
    if s != [] {
      DirsOfDirs(s[1..]);
    }
  }

  lemma {:induction false} DirsSize(s: seq<Entry>)
    ensures SizeAll(Dirs(s)) <= SizeAll(s)
  {
    if s != [] {
      var d := Dirs(s[1..]);
      DirsSize(s[1..]);
      if s[0].Dir? {
        var t := [s[0]] + d;
        assert t[0] == s[0] && t[1..] == d;
        assert Dirs(s) == t;
      } else {
        assert Dirs(s) == d;
      }
    }
  }

  /** The loop that removes the files from the listing, one at a time and
      without advancing past a removed one. */
  method DropFiles(entries: seq<Entry>) returns (files: seq<Entry>)
    ensures files == Dirs(entries)
  {
    files := entries;
    var i := 0;
    while i < |files|
      invariant 0 <= i <= |files|
      invariant forall k :: 0 <= k < i ==> files[k].Dir?
      invariant Dirs(files) == Dirs(entries)
      decreases |files| - i
    {
      if !files[i].Dir? {
        ghost var before := files;
        files := files[..i] + files[i + 1..];
        assert before == files[..i] + [before[i]] + files[i..];
        DirsConcat(files[..i] + [before[i]], files[i..]);
        DirsConcat(files[..i], [before[i]]);
        DirsConcat(files[..i], files[i..]);
        assert files == files[..i] + files[i..];
      } else {
        i := i + 1;
      }
    }
    DirsOfDirs(files);
  }

  // ---------------------------------------------------------------------
  // The lines

  function Visible(entries: seq<Entry>, printFiles: bool): (r: seq<Entry>)
    ensures SizeAll(r) <= SizeAll(entries)
  {
    DirsSize(entries);
    if printFiles then entries else Dirs(entries)
  }

  /** myPrint, without the newline: the glyph, the name, and for a file its size. */
  function Label(e: Entry, last: bool): string {
    (if last then "└───" else "├───") + e.name +
    match e
    case Dir(_, _) => ""
    case File(_, size) => if size != 0 then " (" + Itoa(size) + "b)" else " (empty)"
  }

  /** The indentation under an entry. */
  function ChildTabs(tabs: string, last: bool): string {
    tabs + if last then "\t" else "│\t"
  }

  /** The lines printDirTree prints for a directory holding `entries`. */
  function TreeLines(entries: seq<Entry>, printFiles: bool, tabs: string): seq<string>
    decreases SizeAll(entries), 1
  {
    var files := Visible(entries, printFiles);
    ItemsLines(files, |files|, printFiles, tabs)
  }

  /** The lines of the first `n` entries of a listing. */
  function ItemsLines(files: seq<Entry>, n: nat, printFiles: bool, tabs: string): seq<string>
    requires n <= |files|
    decreases SizeAll(files), 0, n, 2
  {
    if n == 0 then [] else ItemsLines(files, n - 1, printFiles, tabs) + ItemLines(files, n - 1, printFiles, tabs)
  }

  /** The lines of entry `k` of a listing: its own, then its directory's. */
  function ItemLines(files: seq<Entry>, k: nat, printFiles: bool, tabs: string): seq<string>
    requires k < |files|
    decreases SizeAll(files), 0, k, 1
  {
    [tabs + Label(files[k], k == |files| - 1)] + SubLines(files, k, printFiles, tabs)
  }

  /** The lines under entry `k` of a listing: none for a file. */
  function SubLines(files: seq<Entry>, k: nat, printFiles: bool, tabs: string): seq<string>
    requires k < |files|
    decreases SizeAll(files), 0, k, 0
  {
    SizeAt(files, k);
    match files[k]
    case Dir(_, children) => TreeLines(children, printFiles, ChildTabs(tabs, k == |files| - 1))
    case File(_, _) => []
  }

  /** The text of lines, each ended by a newline. */
  function Unlines(lines: seq<string>): string {
    if lines == [] then "" else lines[0] + "\n" + Unlines(lines[1..])
  }

  lemma {:induction false} UnlinesConcat(a: seq<string>, b: seq<string>)
    ensures Unlines(a + b) == Unlines(a) + Unlines(b)
  {
    if a != [] {
      UnlinesConcat(a[1..], b);
      assert (a + b)[1..] == a[1..] + b;
    } else {
      assert a + b == b;
    }
  }

  /** myPrint */
  function MyPrint(e: Entry, last: bool): string {
    Label(e, last) + "\n"
  }

  /** The line myPrint writes: "└───" before the last entry of a listing and
      "├───" before the others, then the name; a directory gets nothing more,
      an empty file " (empty)", any other file its size in bytes as
      " (<size>b)", which reads back as that size; then the newline. */
  lemma LabelShape(e: Entry, last: bool)
    ensures var l := Label(e, last);
            var n := 4 + |e.name|;
            && n <= |l|
            && l[..4] == (if last then "└───" else "├───")
            && l[4..n] == e.name
            && (e.Dir? ==> l[n..] == "")
            && (e.File? && e.size == 0 ==> l[n..] == " (empty)")
            && (e.File? && e.size != 0 ==>
                  l[n..] == " (" + Itoa(e.size) + "b)" &&
                  (e.size <= MaxInt64 ==> Atoi(l[n + 2..|l| - 2]) == Some(e.size)))
            && MyPrint(e, last) == l + "\n"
  {
    var l := Label(e, last);
    var g := if last then "└───" else "├───";
    var n := 4 + |e.name|;
    var tail := l[n..];
    assert l == g + e.name + tail;
    assert l[..4] == g;
    assert l[4..n] == e.name;
    if e.File? && e.size != 0 {
      var digits := Itoa(e.size);
      assert tail == " (" + digits + "b)";
      assert l[n + 2..|l| - 2] == digits;
      if e.size <= MaxInt64 {
        AtoiItoa(e.size);
      }
    }
  }

  /** printDirTree over a directory holding `entries`, with the output returned. */
  method PrintDirTree(entries: seq<Entry>, printFiles: bool, tabs: string) returns (out: string)
    ensures out == Unlines(TreeLines(entries, printFiles, tabs))
    decreases SizeAll(entries)
  {
    var files := entries;
    if !printFiles {
      files := DropFiles(files);
    }
    assert files == Visible(entries, printFiles);
    out := "";
    for i := 0 to |files|
      invariant out == Unlines(ItemsLines(files, i, printFiles, tabs))
    {
      ghost var before := out;
      out := out + tabs;
      var last := false;
      var argtabs := tabs;
      if i == |files| - 1 {
        last := true;
        argtabs := argtabs + "\t";
      } else {
        argtabs := argtabs + "│\t";
      }
      out := out + MyPrint(files[i], last);
      Seqs.AppendAssoc(before, tabs, MyPrint(files[i], last));
      ItemStep(files, i, printFiles, tabs);
      if files[i].Dir? {
        SizeAt(files, i);
        var text := PrintDirTree(files[i].children, printFiles, argtabs);
        out := out + text;
      } else {
        assert SubLines(files, i, printFiles, tabs) == [];
      }
    }
  }

  lemma ItemStep(files: seq<Entry>, i: nat, printFiles: bool, tabs: string)
    requires i < |files|
    ensures Unlines(ItemsLines(files, i + 1, printFiles, tabs)) ==
              Unlines(ItemsLines(files, i, printFiles, tabs)) + (tabs + MyPrint(files[i], i == |files| - 1)) +
              Unlines(SubLines(files, i, printFiles, tabs))
  {
    var own := [tabs + Label(files[i], i == |files| - 1)];
    var sub := SubLines(files, i, printFiles, tabs);
    UnlinesConcat(ItemsLines(files, i, printFiles, tabs), own + sub);
    UnlinesConcat(own, sub);
    assert Unlines(own) == tabs + MyPrint(files[i], i == |files| - 1) by {
      assert own[1..] == [];
    }
  }

  /** dirTree: the listing of the root, with no indentation. */
  method DirTreeOf(root: seq<Entry>, printFiles: bool) returns (out: string)
    ensures out == Unlines(TreeLines(root, printFiles, ""))
  {
    out := PrintDirTree(root, printFiles, "");
  }

  // ---------------------------------------------------------------------
  // Properties of the listing

  /** Every line starts with the indentation of its level. */
  lemma {:induction false} TreeLinesIndented(entries: seq<Entry>, printFiles: bool, tabs: string)
    ensures forall l :: l in TreeLines(entries, printFiles, tabs) ==> tabs <= l
    decreases SizeAll(entries), 1
  {
    var files := Visible(entries, printFiles);
    ItemsLinesIndented(files, |files|, printFiles, tabs);
  }

  lemma {:induction false} ItemsLinesIndented(files: seq<Entry>, n: nat, printFiles: bool, tabs: string)
    requires n <= |files|
    ensures forall l :: l in ItemsLines(files, n, printFiles, tabs) ==> tabs <= l
    decreases SizeAll(files), 0, n
  {
    if n > 0 {
      ItemsLinesIndented(files, n - 1, printFiles, tabs);
      var k, last := n - 1, n - 1 == |files| - 1;
      SizeAt(files, k);
      assert tabs <= tabs + Label(files[k], last);
      assert ItemsLines(files, n, printFiles, tabs) ==
               ItemsLines(files, k, printFiles, tabs) + [tabs + Label(files[k], last)] + SubLines(files, k, printFiles, tabs);
      if files[k].Dir? {
        assert SubLines(files, k, printFiles, tabs) == TreeLines(files[k].children, printFiles, ChildTabs(tabs, last));
        TreeLinesIndented(files[k].children, printFiles, ChildTabs(tabs, last));
        forall l | l in TreeLines(files[k].children, printFiles, ChildTabs(tabs, last)) ensures tabs <= l {
          assert tabs <= ChildTabs(tabs, last);
        }
      }
    }
  }

  /** The lines under the last entry of a listing are indented by one more
      tab; those under any other entry by "│" and a tab. */
  lemma SubLinesIndented(files: seq<Entry>, k: nat, printFiles: bool, tabs: string)
    requires k < |files|
    ensures forall l :: l in SubLines(files, k, printFiles, tabs) ==>
              (if k == |files| - 1 then tabs + "\t" else tabs + "│\t") <= l
  {
    if files[k].Dir? {
      TreeLinesIndented(files[k].children, printFiles, ChildTabs(tabs, k == |files| - 1));
    }
  }

  /** The entries of the whole tree, and its directories. */
  function CountAll(s: seq<Entry>, printFiles: bool): nat
    decreases SizeAll(s)
  {
    if s == [] then 0
    else
      SizeAt(s, 0);
      (if printFiles || s[0].Dir? then 1 else 0) +
      (match s[0] case Dir(_, ch) => CountAll(ch, printFiles) case File(_, _) => 0) +
      CountAll(s[1..], printFiles)
  }

  /** One line per entry of the tree when files are printed, one per
      directory otherwise: recursion enters only directories, and no file
      is printed unless asked for. */
  lemma {:induction false} TreeLinesCount(entries: seq<Entry>, printFiles: bool, tabs: string)
    ensures |TreeLines(entries, printFiles, tabs)| == CountAll(entries, printFiles)
    decreases SizeAll(entries), 1
  {
    var files := Visible(entries, printFiles);
    ItemsLinesCount(files, |files|, printFiles, tabs);
    assert files[..|files|] == files;
    CountVisible(entries, printFiles);
  }

  /** Counting over the visible entries counts all of them. */
  lemma {:induction false} CountVisible(s: seq<Entry>, printFiles: bool)
    ensures CountAll(Visible(s, printFiles), printFiles) == CountAll(s, printFiles)
  {
    if s != [] && !printFiles {
      var d := Dirs(s[1..]);
      CountVisible(s[1..], false);
      if s[0].Dir? {
        var t := [s[0]] + d;
        assert t[0] == s[0] && t[1..] == d;
        assert Dirs(s) == t;
      } else {
        assert Dirs(s) == d;
      }
    }
  }

  lemma {:induction false} CountSnoc(s: seq<Entry>, n: nat, printFiles: bool)
    requires n < |s|
    ensures CountAll(s[..n + 1], printFiles) ==
              CountAll(s[..n], printFiles) + (if printFiles || s[n].Dir? then 1 else 0) +
              (match s[n] case Dir(_, ch) => CountAll(ch, printFiles) case File(_, _) => 0)
  {
    if n > 0 {
      CountSnoc(s[1..], n - 1, printFiles);
      assert s[..n + 1][1..] == s[1..][..n];
      assert s[..n][1..] == s[1..][..n - 1];
    }
  }

  lemma {:induction false} ItemsLinesCount(files: seq<Entry>, n: nat, printFiles: bool, tabs: string)
    requires n <= |files|
    requires printFiles || forall k :: 0 <= k < |files| ==> files[k].Dir?
    ensures |ItemsLines(files, n, printFiles, tabs)| == CountAll(files[..n], printFiles)
    decreases SizeAll(files), 0, n
  {
    if n > 0 {
      var k, last := n - 1, n - 1 == |files| - 1;
      ItemsLinesCount(files, k, printFiles, tabs);
      CountSnoc(files, k, printFiles);
      SizeAt(files, k);
      if files[k].Dir? {
        assert SubLines(files, k, printFiles, tabs) == TreeLines(files[k].children, printFiles, ChildTabs(tabs, last));
        TreeLinesCount(files[k].children, printFiles, ChildTabs(tabs, last));
      } else {
        assert SubLines(files, k, printFiles, tabs) == [];
      }
    }
  }
}
