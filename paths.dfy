/** POSIX path strings as the pipeline builds them (`os.path.join`,
    `os.path.relpath`, f-strings) and the file system they name.

    A file system is a map keyed by the normalised component list of a path:
    `a/./b`, `a//b` and `a/b` name the same file, as they do for the OS.
    `..` is kept as an ordinary component (no path here climbs above its
    starting directory), and absolute and relative paths are not told apart
    (every path the pipeline builds is relative). */
module Paths {
  import opened Wrappers
  import opened Strings

  /** `s.split("/")` */
  function Split(s: string): (r: seq<string>)
    ensures |r| >= 1
  {
    if s == [] then [""]
    else if s[0] == '/' then [""] + Split(s[1..])
    else var t := Split(s[1..]); [[s[0]] + t[0]] + t[1..]
  }

  /** `"/".join(parts)` */
  function Render(parts: seq<string>): string
  {
    Join("/", parts)
  }

  /** Empty and `.` components do not move the resolution. */
  function Norm(cs: seq<string>): seq<string>
  {
    if cs == [] then []
    else (if cs[0] == "" || cs[0] == "." then [] else [cs[0]]) + Norm(cs[1..])
  }

  /** The file a path string names. */
  function Key(path: string): seq<string>
  {
    Norm(Split(path))
  }

  /** A directory or file name as `os.walk` and `os.listdir` report it. */
  predicate IsName(c: string)
  {
    c != "" && c != "." && c != ".." && '/' !in c
  }

  predicate AllNames(cs: seq<string>)
  {
    forall i | 0 <= i < |cs| :: IsName(cs[i])
  }

  /** `os.path.join(a, b)` for two arguments (posixpath). */
  function PathJoin(a: string, b: string): string
  {
    if StartsWith(b, "/") then b
    else if a == [] || EndsWith(a, "/") then a + b
    else a + "/" + b
  }

  /** Length of the longest common prefix of two component lists. */
  function CommonPrefix(a: seq<string>, b: seq<string>): (k: nat)
    ensures k <= |a| && k <= |b|
  {
    if a == [] || b == [] || a[0] != b[0] then 0 else 1 + CommonPrefix(a[1..], b[1..])
  }

  /** `os.path.relpath(path, start)`: climb out of what `start` has beyond the
      common prefix, then descend into the rest of `path`; `.` when nothing is left. */
  function RelPath(path: string, start: string): string
  {
    var p, s := Key(path), Key(start);
    var k := CommonPrefix(p, s);
    var rel := seq(|s| - k, _ => "..") + p[k..];
    if rel == [] then "." else Render(rel)
  }

  /** A file as a directory listing names it, with what reading it returns. */
  datatype TextFile = TextFile(name: string, content: string)

  /** Writing `(path, content)` pairs in order; a later write replaces an earlier one. */
  function ApplyWrites<V>(fs: map<seq<string>, V>, ws: seq<(string, V)>): map<seq<string>, V>
  {
    if ws == [] then fs
    else ApplyWrites(fs, ws[..|ws| - 1])[Key(ws[|ws| - 1].0) := ws[|ws| - 1].1]
  }

  // ---------------------------------------------------------------------
  // Splitting and normalising
  // ---------------------------------------------------------------------

  lemma {:induction false} SplitSlashFree(c: string)
    requires '/' !in c
    ensures Split(c) == [c]
  {
    if c != [] {
      assert c[0] in c;
      SplitSlashFree(c[1..]);
      assert [c[0]] + c[1..] == c;
    }
  }

  lemma SplitCons(c: char, rest: string)
    ensures Split([c] + rest) == if c == '/' then [""] + Split(rest)
                                 else [[c] + Split(rest)[0]] + Split(rest)[1..]
  {
    assert ([c] + rest)[0] == c;
    assert ([c] + rest)[1..] == rest;
  }

  /** Gluing a character onto the first component commutes with appending components. */
  lemma GlueHead(c: char, t: seq<string>, u: seq<string>)
    requires t != []
    ensures [[c] + (t + u)[0]] + (t + u)[1..] == ([[c] + t[0]] + t[1..]) + u
  {
    assert (t + u)[0] == t[0];
    assert (t + u)[1..] == t[1..] + u;
  }

  lemma {:induction false} SplitAppend(a: string, b: string)
    ensures Split(a + "/" + b) == Split(a) + Split(b)
  {
    if a == [] {
      assert a + "/" + b == ['/'] + b;
      SplitCons('/', b);
    } else {
      var rest := a[1..] + "/" + b;
      assert a + "/" + b == [a[0]] + rest;
      assert a == [a[0]] + a[1..];
      SplitCons(a[0], rest);
      SplitCons(a[0], a[1..]);
      SplitAppend(a[1..], b);
      if a[0] != '/' {
        GlueHead(a[0], Split(a[1..]), Split(b));
      }
    }
  }

  lemma {:induction false} SplitRender(cs: seq<string>)
    requires |cs| >= 1 && forall i | 0 <= i < |cs| :: '/' !in cs[i]
    ensures Split(Render(cs)) == cs
  {
    if |cs| == 1 {
      SplitSlashFree(cs[0]);
    } else {
      SplitRender(cs[1..]);
      SplitAppend(cs[0], Render(cs[1..]));
      SplitSlashFree(cs[0]);
      assert [cs[0]] + cs[1..] == cs;
    }
  }

  lemma {:induction false} NormAppend(a: seq<string>, b: seq<string>)
    ensures Norm(a + b) == Norm(a) + Norm(b)
  {
    if a != [] {
      assert (a + b)[0] == a[0];
      assert (a + b)[1..] == a[1..] + b;
      NormAppend(a[1..], b);
    } else {
      assert a + b == b;
    }
  }

  lemma {:induction false} NormNames(cs: seq<string>)
    requires AllNames(cs)
    ensures Norm(cs) == cs
  {
    if cs != [] {
      assert IsName(cs[0]);
      NormNames(cs[1..]);
      assert [cs[0]] + cs[1..] == cs;
    }
  }

  /** Joining two path strings concatenates the files' component lists. */
  lemma KeyPathJoin(a: string, b: string)
    requires !StartsWith(b, "/")
    ensures Key(PathJoin(a, b)) == Key(a) + Key(b)
  {
    if a == [] {
      assert PathJoin(a, b) == b;
      assert Key(a) == [];
    } else if EndsWith(a, "/") {
      var a' := a[..|a| - 1];
      assert a == a' + "/" + "";
      assert PathJoin(a, b) == a' + "/" + b;
      SplitAppend(a', b);
      SplitAppend(a', "");
      NormAppend(Split(a'), Split(b));
      NormAppend(Split(a'), [""]);
    } else {
      SplitAppend(a, b);
      NormAppend(Split(a), Split(b));
    }
  }

  /** A path rendered from names names exactly those components. */
  lemma KeyRender(cs: seq<string>)
    requires AllNames(cs)
    ensures Key(Render(cs)) == cs
  {
    if cs != [] {
      SplitRender(cs);
      NormNames(cs);
    }
  }

  lemma {:induction false} CommonPrefixExtends(s: seq<string>, sub: seq<string>)
    ensures CommonPrefix(s + sub, s) == |s|
  {
    if s != [] {
      assert (s + sub)[0] == s[0];
      assert (s + sub)[1..] == s[1..] + sub;
      CommonPrefixExtends(s[1..], sub);
    }
  }

  /** `.` names the directory it is resolved against. */
  lemma KeyDot()
    ensures Key(".") == []
  {
    SplitSlashFree(".");
  }

  /** The component list `relpath` renders, for a directory below `start`. */
  lemma RelComponents(p: seq<string>, s: seq<string>, sub: seq<string>)
    requires p == s + sub
    ensures CommonPrefix(p, s) == |s|
    ensures seq(|s| - CommonPrefix(p, s), _ => "..") + p[CommonPrefix(p, s)..] == sub
  {
    CommonPrefixExtends(s, sub);
    assert p[|s|..] == sub;
    assert seq(0, _ => "..") + sub == sub;
  }

  /** For a directory below `start`, `relpath` is the part below `start`,
      and `.` for `start` itself. */
  lemma RelPathBelow(path: string, start: string, sub: seq<string>)
    requires Key(path) == Key(start) + sub && AllNames(sub)
    ensures RelPath(path, start) == if sub == [] then "." else Render(sub)
    ensures Key(RelPath(path, start)) == sub
  {
    RelComponents(Key(path), Key(start), sub);
    KeyRender(sub);
    KeyDot();
  }

  // ---------------------------------------------------------------------
  // Writes
  // ---------------------------------------------------------------------

  lemma {:induction false} ApplyWritesAppend<V>(fs: map<seq<string>, V>, a: seq<(string, V)>, b: seq<(string, V)>)
    ensures ApplyWrites(fs, a + b) == ApplyWrites(ApplyWrites(fs, a), b)
    decreases |b|
  {
    if b == [] {
      assert a + b == a;
    } else {
      var n := |b|;
      assert (a + b)[..|a + b| - 1] == a + b[..n - 1];
      assert (a + b)[|a + b| - 1] == b[n - 1];
      ApplyWritesAppend(fs, a, b[..n - 1]);
    }
  }

  /** A file no write names keeps its previous state. */
  lemma {:induction false} ApplyWritesUntouched<V>(fs: map<seq<string>, V>, ws: seq<(string, V)>, k: seq<string>)
    requires forall i | 0 <= i < |ws| :: Key(ws[i].0) != k
    ensures k in ApplyWrites(fs, ws) <==> k in fs
    ensures k in fs ==> ApplyWrites(fs, ws)[k] == fs[k]
  {
    if ws != [] {
      ApplyWritesUntouched(fs, ws[..|ws| - 1], k);
    }
  }

  /** A file holds what its last write put there. */
  lemma {:induction false} ApplyWritesLast<V>(fs: map<seq<string>, V>, ws: seq<(string, V)>, i: nat)
    requires i < |ws|
    requires forall j | i < j < |ws| :: Key(ws[j].0) != Key(ws[i].0)
    ensures Key(ws[i].0) in ApplyWrites(fs, ws)
    ensures ApplyWrites(fs, ws)[Key(ws[i].0)] == ws[i].1
  {
    if i < |ws| - 1 {
      ApplyWritesLast(fs, ws[..|ws| - 1], i);
    }
  }

  // ---------------------------------------------------------------------
  // Listings whose entries yield at most one write each
  // ---------------------------------------------------------------------

  /** The writes a listing produces when each entry yields at most one file, in listing order. */
  function Outputs<T, V>(items: seq<T>, out: T -> Option<(string, V)>): seq<(string, V)>
  {
    if items == [] then []
    else
      Outputs(items[..|items| - 1], out)
      + (match out(items[|items| - 1]) case Some(w) => [w] case None => [])
  }

  lemma OutputsSnoc<T, V>(items: seq<T>, i: nat, out: T -> Option<(string, V)>)
    requires i < |items|
    ensures Outputs(items[..i + 1], out)
            == Outputs(items[..i], out) + (match out(items[i]) case Some(w) => [w] case None => [])
  {
    assert items[..i + 1][..i] == items[..i];
  }

  /** One more listing entry: its write, if any, lands on top of the earlier ones. */
  lemma WriteOutputsSnoc<T, V>(fs: map<seq<string>, V>, items: seq<T>, i: nat, out: T -> Option<(string, V)>)
    requires i < |items|
    ensures ApplyWrites(fs, Outputs(items[..i + 1], out))
            == match out(items[i])
               case Some(w) => ApplyWrites(fs, Outputs(items[..i], out))[Key(w.0) := w.1]
               case None => ApplyWrites(fs, Outputs(items[..i], out))
  {
    OutputsSnoc(items, i, out);
    var prev := Outputs(items[..i], out);
    match out(items[i])
    case Some(w) =>
      assert (prev + [w])[..|prev|] == prev;
    case None =>
      assert prev + [] == prev;
  }

  /** Every write comes from an entry the per-entry rule accepts, and the writes keep
      listing order: they are a subsequence of the accepted entries' outputs. */
  lemma {:induction false} OutputsOrigin<T, V>(items: seq<T>, out: T -> Option<(string, V)>, k: nat)
    returns (j: nat)
    requires k < |Outputs(items, out)|
    ensures j < |items| && out(items[j]) == Some(Outputs(items, out)[k])
  {
    var n := |items| - 1;
    var prefix := Outputs(items[..n], out);
    if k < |prefix| {
      j := OutputsOrigin(items[..n], out, k);
    } else {
      j := n;
    }
  }

  /** An entry the rule rejects contributes nothing. */
  lemma {:induction false} OutputsCount<T, V>(items: seq<T>, out: T -> Option<(string, V)>)
    ensures |Outputs(items, out)| == |set i | 0 <= i < |items| && out(items[i]).Some?|
  {
    if items != [] {
      var n := |items| - 1;
      OutputsCount(items[..n], out);
      var prev := set i | 0 <= i < n && out(items[..n][i]).Some?;
      var all := set i | 0 <= i < |items| && out(items[i]).Some?;
      assert prev == set i | 0 <= i < n && out(items[i]).Some?;
      if out(items[n]).Some? {
        assert all == prev + {n};
      } else {
        assert all == prev;
      }
    }
  }

  // ---------------------------------------------------------------------
  // Directory walks
  // ---------------------------------------------------------------------

  /** One step of `os.walk`: a directory and the files directly in it, in listing order. */
  datatype Dir<F> = Dir(root: string, files: seq<F>)

  /** The files of a walk in visiting order, each with the directory it was found in. */
  function Listing<F>(walk: seq<Dir<F>>): seq<(string, F)>
  {
    if walk == [] then []
    else Listing(walk[..|walk| - 1]) + Entries(walk[|walk| - 1].root, walk[|walk| - 1].files)
  }

  function Entries<F>(root: string, files: seq<F>): (entries: seq<(string, F)>)
    ensures |entries| == |files|
  {
    seq(|files|, i requires 0 <= i < |files| => (root, files[i]))
  }

  /** Every entry of the listing is a file of one walk directory. */
  lemma {:induction false} ListingOrigin<F>(walk: seq<Dir<F>>, i: nat) returns (d: nat, j: nat)
    requires i < |Listing(walk)|
    ensures d < |walk| && j < |walk[d].files| && Listing(walk)[i] == (walk[d].root, walk[d].files[j])
  {
    var n := |walk| - 1;
    var before := Listing(walk[..n]);
    if i < |before| {
      d, j := ListingOrigin(walk[..n], i);
      assert walk[..n][d] == walk[d];
    } else {
      d, j := n, i - |before|;
    }
  }

  lemma ListingSnoc<F>(walk: seq<Dir<F>>, d: nat)
    requires d < |walk|
    ensures Listing(walk[..d + 1]) == Listing(walk[..d]) + Entries(walk[d].root, walk[d].files)
  {
    assert walk[..d + 1][..d] == walk[..d];
  }

  lemma EntriesSnoc<F>(prefix: seq<(string, F)>, root: string, files: seq<F>, j: nat)
    requires j < |files|
    ensures prefix + Entries(root, files[..j + 1]) == (prefix + Entries(root, files[..j])) + [(root, files[j])]
  {
    assert Entries(root, files[..j + 1]) == Entries(root, files[..j]) + [(root, files[j])];
  }

  lemma EntriesAll<F>(prefix: seq<(string, F)>, root: string, files: seq<F>)
    ensures prefix + Entries(root, files[..0]) == prefix
    ensures Entries(root, files[..|files|]) == Entries(root, files)
  {
    assert files[..|files|] == files;
    assert prefix + Entries(root, files[..0]) == prefix;
  }

  /** No proper suffix of the extensions the program matches is also a prefix of it, so
      replacing one never overlaps itself. */
  lemma UnborderedExtensions()
    ensures Unbordered(".json") && Unbordered(".csv") && Unbordered(".txt")
  {
    assert forall k | 0 < k < 5 :: ".json"[k..] != ".json"[..5 - k] by {
      forall k | 0 < k < 5 ensures ".json"[k..] != ".json"[..5 - k] {
        assert ".json"[..5 - k][0] == '.';
      }
    }
    assert forall k | 0 < k < 4 :: ".csv"[k..] != ".csv"[..4 - k] by {
      forall k | 0 < k < 4 ensures ".csv"[k..] != ".csv"[..4 - k] {
        assert ".csv"[..4 - k][0] == '.';
      }
    }
    assert forall k | 0 < k < 4 :: ".txt"[k..] != ".txt"[..4 - k] by {
      forall k | 0 < k < 4 ensures ".txt"[k..] != ".txt"[..4 - k] {
        assert ".txt"[..4 - k][0] == '.';
      }
    }
  }

}
