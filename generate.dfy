/**
 * The go:generate comment that drives go-bindata: the asset directories, each
 * normalised to a recursive pattern ending in "/...", and the deduplicated
 * list of `-prefix` roots stripped from the embedded file names. A vendored
 * directory contributes `vendor/<host>/<org>/<repo>/`; a directory reached
 * through a run of `../` contributes that run followed by `<host>/<org>/<repo>/`.
 */
module Generate {
  import opened Wrappers
  import opened GoStrings
  import opened Seqs

  /** A directory as a go-bindata input pattern: it ends in "/...". */
  function Normalize(v: string): (r: string)
    ensures HasSuffix(r, "/...")
    ensures v <= r
    ensures HasSuffix(v, "/...") ==> r == v
  {
    if HasSuffix(v, "/...") then v
    else (if HasSuffix(v, "/") then v else v + "/") + "..."
  }

  lemma NormalizeIdempotent(v: string)
    ensures Normalize(Normalize(v)) == Normalize(v)
  {
  }

  function NormalizeAll(dirs: seq<string>): (r: seq<string>)
    ensures |r| == |dirs|
  {
    seq(|dirs|, i requires 0 <= i < |dirs| => Normalize(dirs[i]))
  }

  /** The state of the `../`-skipping loop: what is left to scan, and how many characters to keep. */
  datatype Scan = Scan(cleaned: string, totalPos: nat)

  /**
   * The `../`-skipping loop: while `cleaned` still holds a `../` and is longer
   * than three characters, drop everything up to and including that `../`
   * and count three more characters of the prefix to keep.
   */
  function SkipDotDots(cleaned: string, total: nat): (r: Scan)
    ensures |r.cleaned| <= |cleaned|
    ensures total <= r.totalPos <= total + (|cleaned| - |r.cleaned|)
    decreases |cleaned|
  {
    var pos := Index(cleaned, "../");
    if pos > -1 && |cleaned| > 3 then
      SkipDotDots(cleaned[pos + 3..], total + 3)
    else Scan(cleaned, total)
  }

  /**
   * The `-prefix` root a normalised entry contributes, if any: the first four
   * path segments of a `vendor/` entry that has a fifth, or, for an entry
   * holding `../`, the first `totalPos` characters followed by the first
   * three segments after the last `../` that the skipping loop consumed.
   */
  function EntryPrefix(v: string): (root: Option<string>)
    ensures root.Some? ==> HasSuffix(root.value, "/")
  {
    if HasPrefix(v, "vendor/") then VendorPrefix(v) else RelativePrefix(v)
  }

  /** The root of a `vendor/` entry: its first four segments, when it has a fifth. */
  function VendorPrefix(v: string): Option<string> {
    var parts := SplitN(v, '/', 5);
    if |parts| == 5 then Some(Join(parts[..4], "/") + "/") else None
  }

  /**
   * The root of any other entry holding `../`: its first `totalPos`
   * characters followed by the first three segments after the `../` run.
   */
  function RelativePrefix(v: string): Option<string> {
    var pos := Index(v, "../");
    if pos > -1 && |v| > 3 then RunRoot(v, SkipDotDots(v[pos + 3..], 3)) else None
  }

  /**
   * The root once the skipping loop has stopped: the first `totalPos`
   * characters of the entry followed by the first three segments of what is
   * left, when it has a fourth.
   */
  function RunRoot(v: string, scan: Scan): Option<string>
    requires scan.totalPos <= |v|
  {
    var parts := SplitN(scan.cleaned, '/', 4);
    if |parts| == 4 then Some(v[..scan.totalPos] + Join(parts[..3], "/") + "/") else None
  }

  /** A vendor entry's root is a leading part of the entry ending at a '/'. */
  lemma VendorPrefixIsPrefix(v: string)
    requires HasPrefix(v, "vendor/") && EntryPrefix(v).Some?
    ensures EntryPrefix(v).value <= v && HasSuffix(EntryPrefix(v).value, "/")
  {
    var parts := SplitN(v, '/', 5);
    SplitNJoin(v, '/', 5);
    JoinSplitAt(parts, 4, "/");
  }

  /**
   * The `-prefix` roots of normalised entries as the loop gathers them: an
   * entry's root is appended unless an earlier entry already gave it.
   */
  function Roots(entries: seq<string>): seq<string> {
    if entries == [] then []
    else
      var seen := Roots(entries[..|entries| - 1]);
      var found := EntryPrefix(entries[|entries| - 1]);
      if found.Some? && found.value !in seen then seen + [found.value] else seen
  }

  /** The `-prefix` roots of raw asset directories. */
  function Prefixes(dirs: seq<string>): seq<string> {
    Roots(NormalizeAll(dirs))
  }

  /** The root candidates of the entries, in entry order, duplicates included. */
  function Candidates(entries: seq<string>): seq<string> {
    Collect(EntryPrefix, entries)
  }

  /** The gathered roots are the candidates with later repeats removed. */
  lemma {:induction false} RootsDedup(entries: seq<string>)
    ensures Roots(entries) == Dedup(Candidates(entries))
  {
    if entries != [] {
      var init, last := entries[..|entries| - 1], entries[|entries| - 1];
      RootsDedup(init);
      assert entries == init + [last];
      CollectSnoc(EntryPrefix, init, last);
      if EntryPrefix(last).Some? {
        DedupSnoc(Candidates(init), EntryPrefix(last).value);
      } else {
        assert Candidates(init) + [] == Candidates(init);
      }
    }
  }

  /** Every root is listed once. */
  lemma RootsNoDup(entries: seq<string>)
    ensures NoDup(Roots(entries))
  {
    RootsDedup(entries);
    DedupNoDup(Candidates(entries));
  }

  /** A root is listed exactly when some entry yields it. */
  lemma RootsElements(entries: seq<string>)
    ensures forall p :: p in Roots(entries) <==>
      exists i :: 0 <= i < |entries| && EntryPrefix(entries[i]) == Some(p)
  {
    RootsDedup(entries);
    DedupElements(Candidates(entries));
    CollectElements(EntryPrefix, entries);
  }

  /** Roots appear in the order in which their first entries do. */
  lemma RootsOrder(entries: seq<string>)
    ensures OrderedByFirst(Candidates(entries), Roots(entries))
  {
    RootsDedup(entries);
    DedupOrder(Candidates(entries));
  }

  /** A `../` starts at index `i` of `s`. */
  predicate DotDotSlashAt(s: string, i: int) {
    0 <= i && i + 2 < |s| && s[i] == '.' && s[i + 1] == '.' && s[i + 2] == '/'
  }

  ghost predicate NoDotDotSlash(s: string) {
    forall i :: !DotDotSlashAt(s, i)
  }

  lemma NoDotDotSlashIndex(s: string)
    requires NoDotDotSlash(s)
    ensures Index(s, "../") == -1
  {
    forall i | OccursAt(s, "../", i)
      ensures DotDotSlashAt(s, i)
    {
      assert s[i..i + 3][0] == '.' && s[i..i + 3][1] == '.' && s[i..i + 3][2] == '/';
    }
  }

  lemma NoDotDotSlashConcat(a: string, b: string)
    requires NoDotDotSlash(a) && NoDotDotSlash(b)
    requires |a| >= 1 && a[|a| - 1] != '.'
    ensures NoDotDotSlash(a + b)
  {
    var s := a + b;
    forall i | 0 <= i && i + 2 < |s|
      ensures !DotDotSlashAt(s, i)
    {
      if i + 2 < |a| {
        assert !DotDotSlashAt(a, i);
      } else if i >= |a| {
        assert !DotDotSlashAt(b, i - |a|);
      }
    }
  }

  /** A run of `k` parent-directory steps. */
  function DotDots(k: nat): (r: string)
    ensures |r| == 3 * k
  {
    if k == 0 then "" else "../" + DotDots(k - 1)
  }

  lemma IndexAtStart(s: string, sub: string)
    requires sub <= s
    ensures Index(s, sub) == 0
  {
  }

  lemma SkipDotDotsStep(c: string, total: nat)
    requires "../" <= c && |c| > 3
    ensures SkipDotDots(c, total) == SkipDotDots(c[3..], total + 3)
  {
    IndexAtStart(c, "../");
  }

  lemma SkipDotDotsStop(c: string, total: nat)
    requires Index(c, "../") == -1
    ensures SkipDotDots(c, total) == Scan(c, total)
  {
  }

  lemma DotDotsHead(k: nat, t: string)
    requires k >= 1
    ensures "../" <= DotDots(k) + t
    ensures (DotDots(k) + t)[3..] == DotDots(k - 1) + t
  {
    assert DotDots(k) + t == "../" + (DotDots(k - 1) + t);
  }

  /** The skipping loop consumes a whole run of `../` and counts three characters per step. */
  lemma {:induction false} SkipDotDotsRun(k: nat, t: string, total: nat)
    requires Index(t, "../") == -1 && |t| > 0
    ensures SkipDotDots(DotDots(k) + t, total) == Scan(t, total + 3 * k)
  {
    if k == 0 {
      assert DotDots(k) + t == t;
      SkipDotDotsStop(t, total);
    } else {
      DotDotsHead(k, t);
      SkipDotDotsStep(DotDots(k) + t, total);
      SkipDotDotsRun(k - 1, t, total + 3);
    }
  }

  /** The first three segments of a repository path, each followed by '/'. */
  function RepoRoot(host: string, org: string, repo: string): string {
    host + "/" + org + "/" + repo + "/"
  }

  lemma SplitRepoPath(host: string, org: string, repo: string, rest: string)
    requires '/' !in host && '/' !in org && '/' !in repo
    ensures SplitN(RepoRoot(host, org, repo) + rest, '/', 4) == [host, org, repo, rest]
  {
    var t3 := repo + "/" + rest;
    var t2 := org + "/" + t3;
    var t1 := host + "/" + t2;
    assert RepoRoot(host, org, repo) + rest == t1;
    SplitNCons(repo, '/', rest, 2);
    var p3 := SplitN(t3, '/', 2);
    assert p3 == [repo, rest];
    SplitNCons(org, '/', t3, 3);
    var p2 := SplitN(t2, '/', 3);
    assert p2 == [org] + p3;
    SplitNCons(host, '/', t2, 4);
    assert SplitN(t1, '/', 4) == [host] + p2;
  }

  lemma JoinRepoRoot(host: string, org: string, repo: string)
    ensures Join([host, org, repo], "/") + "/" == RepoRoot(host, org, repo)
  {
    assert [org, repo][1..] == [repo];
    assert Join([org, repo], "/") == org + "/" + repo;
    assert [host, org, repo][1..] == [org, repo];
  }

  /** Splitting a `vendor/` entry puts "vendor" in front of the split of the rest. */
  lemma VendorSplit(t: string, parts: seq<string>)
    requires SplitN(t, '/', 4) == parts
    ensures SplitN("vendor/" + t, '/', 5) == ["vendor"] + parts
  {
    assert "vendor/" + t == "vendor" + "/" + t;
    SplitNCons("vendor", '/', t, 5);
  }

  /** A `vendor/` entry split into five pieces has the first four, rejoined, as its root. */
  lemma VendorPrefixFrom(v: string, parts: seq<string>)
    requires "vendor/" <= v
    requires SplitN(v, '/', 5) == parts && |parts| == 5
    ensures EntryPrefix(v) == Some(Join(parts[..4], "/") + "/")
  {
  }

  lemma VendorRootJoin(segs: seq<string>)
    requires |segs| > 0
    ensures Join(["vendor"] + segs, "/") + "/" == "vendor/" + (Join(segs, "/") + "/")
  {
    JoinCons("vendor", segs, "/");
    assert "vendor" + "/" == "vendor/";
  }

  /**
   * `vendor/<rest>`, where `<rest>` splits into at least four segments,
   * contributes `vendor/` followed by the first three of them, each closed by '/'.
   */
  lemma VendorEntryPrefix(t: string, parts: seq<string>)
    requires SplitN(t, '/', 4) == parts && |parts| == 4
    ensures EntryPrefix("vendor/" + t) == Some("vendor/" + (Join(parts[..3], "/") + "/"))
  {
    VendorSplit(t, parts);
    VendorPrefixFrom("vendor/" + t, ["vendor"] + parts);
    assert (["vendor"] + parts)[..4] == ["vendor"] + parts[..3];
    VendorRootJoin(parts[..3]);
  }

  /** `vendor/<host>/<org>/<repo>/<rest>` contributes `vendor/<host>/<org>/<repo>/`. */
  lemma VendorRepoEntry(host: string, org: string, repo: string, rest: string)
    requires '/' !in host && '/' !in org && '/' !in repo
    ensures EntryPrefix("vendor/" + (RepoRoot(host, org, repo) + rest))
      == Some("vendor/" + RepoRoot(host, org, repo))
  {
    SplitRepoPath(host, org, repo, rest);
    var parts := [host, org, repo, rest];
    VendorEntryPrefix(RepoRoot(host, org, repo) + rest, parts);
    assert parts[..3] == [host, org, repo];
    JoinRepoRoot(host, org, repo);
  }

  /** An entry made of a run of `../` finds its first `../` at the start. */
  lemma RunIndex(k: nat, t: string)
    requires k >= 1
    ensures Index(DotDots(k) + t, "../") == 0
  {
    DotDotsHead(k, t);
    IndexAtStart(DotDots(k) + t, "../");
  }

  /** The skipping loop, entered after the first `../` of a run of `k`, counts the whole run. */
  lemma RunSkipped(k: nat, t: string)
    requires k >= 1 && Index(t, "../") == -1 && |t| > 0
    ensures SkipDotDots((DotDots(k) + t)[3..], 3) == Scan(t, 3 * k)
  {
    DotDotsHead(k, t);
    SkipDotDotsRun(k - 1, t, 3);
  }

  lemma RunShape(k: nat, t: string)
    requires k >= 1
    ensures (DotDots(k) + t)[..3 * k] == DotDots(k)
    ensures (DotDots(k) + t)[0] == '.'
    ensures |t| > 0 ==> |DotDots(k) + t| > 3
  {
    DotDotsHead(k, t);
  }

  /**
   * An entry starting with `../` whose skipping loop stops at `t` after
   * counting `totalPos`, and whose `t` splits into four pieces, has the first
   * `totalPos` characters and the first three pieces as its root.
   */
  lemma EntryIsRelative(v: string)
    requires |v| > 0 && v[0] != 'v'
    ensures EntryPrefix(v) == RelativePrefix(v)
  {
    assert !("vendor/" <= v);
  }

  lemma RunRootFrom(v: string, totalPos: nat, t: string, parts: seq<string>, run: string, root: string)
    requires totalPos <= |v|
    requires SplitN(t, '/', 4) == parts
    requires |parts| == 4
    requires v[..totalPos] == run
    requires Join(parts[..3], "/") + "/" == root
    ensures RunRoot(v, Scan(t, totalPos)) == Some(run + root)
  {
    AppendAssoc(run, Join(parts[..3], "/"), "/");
  }

  lemma RelativePrefixFrom(v: string, pos: nat, totalPos: nat, t: string, parts: seq<string>,
                           run: string, root: string)
    requires |v| > 3
    requires Index(v, "../") == pos
    requires SkipDotDots(v[pos + 3..], 3) == Scan(t, totalPos)
    requires SplitN(t, '/', 4) == parts
    requires |parts| == 4
    requires v[..totalPos] == run
    requires Join(parts[..3], "/") + "/" == root
    ensures RelativePrefix(v) == Some(run + root)
  {
    RunRootFrom(v, totalPos, t, parts, run, root);
  }

  /**
   * `<k times ../><rest>`, with no further `../` in `<rest>` and at least
   * four segments in it, contributes the run followed by the first three
   * segments, each closed by '/'.
   */
  lemma DotDotEntryPrefix(k: nat, t: string, parts: seq<string>)
    requires k >= 1 && |t| > 0 && Index(t, "../") == -1
    requires SplitN(t, '/', 4) == parts && |parts| == 4
    ensures EntryPrefix(DotDots(k) + t) == Some(DotDots(k) + (Join(parts[..3], "/") + "/"))
  {
    var v := DotDots(k) + t;
    RunIndex(k, t);
    RunSkipped(k, t);
    RunShape(k, t);
    RelativePrefixFrom(v, 0, 3 * k, t, parts, DotDots(k), Join(parts[..3], "/") + "/");
    EntryIsRelative(v);
  }

  /**
   * `<k times ../><host>/<org>/<repo>/<rest>`, with no further `../` after the
   * run, contributes the run followed by `<host>/<org>/<repo>/`.
   */
  lemma DotDotRepoEntry(k: nat, host: string, org: string, repo: string, rest: string)
    requires k >= 1
    requires '/' !in host && '/' !in org && '/' !in repo
    requires Index(RepoRoot(host, org, repo) + rest, "../") == -1
    ensures EntryPrefix(DotDots(k) + (RepoRoot(host, org, repo) + rest))
      == Some(DotDots(k) + RepoRoot(host, org, repo))
  {
    SplitRepoPath(host, org, repo, rest);
    var parts := [host, org, repo, rest];
    DotDotEntryPrefix(k, RepoRoot(host, org, repo) + rest, parts);
    assert parts[..3] == [host, org, repo];
    JoinRepoRoot(host, org, repo);
  }

  /** The roots of a single entry: its own root, if it has one. */
  lemma RootsOfOne(e: string)
    ensures Roots([e]) == if EntryPrefix(e).Some? then [EntryPrefix(e).value] else []
  {
    assert [e][..0] == [];
  }

  /** Entries that all have the same root gather that root once. */
  lemma {:induction false} RootsShared(entries: seq<string>, p: string)
    requires |entries| > 0
    requires forall i :: 0 <= i < |entries| ==> EntryPrefix(entries[i]) == Some(p)
    ensures Roots(entries) == [p]
  {
    var init := entries[..|entries| - 1];
    if |init| == 0 {
      assert Roots(init) == [];
    } else {
      RootsShared(init, p);
    }
  }

  /**
   * Any number of directories inside one vendored repository contribute its
   * root exactly once.
   */
  lemma SharedVendorRoot(host: string, org: string, repo: string, rests: seq<string>)
    requires '/' !in host && '/' !in org && '/' !in repo
    requires |rests| > 0
    ensures Roots(seq(|rests|, i requires 0 <= i < |rests| => "vendor/" + (RepoRoot(host, org, repo) + rests[i])))
      == ["vendor/" + RepoRoot(host, org, repo)]
  {
    var entries := seq(|rests|, i requires 0 <= i < |rests| => "vendor/" + (RepoRoot(host, org, repo) + rests[i]));
    forall i | 0 <= i < |entries|
      ensures EntryPrefix(entries[i]) == Some("vendor/" + RepoRoot(host, org, repo))
    {
      VendorRepoEntry(host, org, repo, rests[i]);
    }
    RootsShared(entries, "vendor/" + RepoRoot(host, org, repo));
  }

  /** The `../`-counting loop, run over what follows the first `../`. */
  method CountDotDotRun(rest: string) returns (cleaned: string, totalPos: nat)
    ensures Scan(cleaned, totalPos) == SkipDotDots(rest, 3)
  {
    cleaned := rest;
    totalPos := 3;
    var pos := Index(cleaned, "../");
    while pos > -1 && |cleaned| > 3
      invariant pos == Index(cleaned, "../")
      invariant SkipDotDots(cleaned, totalPos) == SkipDotDots(rest, 3)
      decreases |cleaned|
    {
      totalPos := totalPos + 3;
      cleaned := cleaned[pos + 3..];
      pos := Index(cleaned, "../");
    }
  }

  /** The loop body's rewriting of one entry to a recursive pattern. */
  method NormalizeEntry(dir: string) returns (v: string)
    ensures v == Normalize(dir)
  {
    v := dir;
    if !HasSuffix(v, "/...") {
      if !HasSuffix(v, "/") {
        v := v + "/";
      }
      v := v + "...";
    }
  }

  /** The branch of the loop body that finds the root of one normalised entry. */
  method FindPrefix(v: string) returns (found: Option<string>)
    ensures found == EntryPrefix(v)
  {
    found := None;
    if HasPrefix(v, "vendor/") {
      var parts := SplitN(v, '/', 5);
      if |parts| == 5 {
        found := Some(Join(parts[..4], "/") + "/");
      }
    } else {
      var pos := Index(v, "../");
      if pos > -1 && |v| > 3 {
        var cleaned, totalPos := CountDotDotRun(v[pos + 3..]);
        var parts := SplitN(cleaned, '/', 4);
        if |parts| == 4 {
          found := Some(v[..totalPos] + Join(parts[..3], "/") + "/");
        }
      }
    }
  }

  /**
   * The rewritten list has the input's length and order, every entry is a
   * pattern ending in "/...", and rewriting it again changes nothing.
   */
  lemma NormalizeAllPatterns(dirs: seq<string>)
    ensures var r := NormalizeAll(dirs);
      |r| == |dirs|
      && (forall i :: 0 <= i < |dirs| ==> r[i] == Normalize(dirs[i]) && HasSuffix(r[i], "/..."))
      && NormalizeAll(r) == r
  {
    var r := NormalizeAll(dirs);
    forall i | 0 <= i < |dirs|
      ensures NormalizeAll(r)[i] == r[i]
    {
      NormalizeIdempotent(dirs[i]);
    }
  }

  /** The roots of one more entry: its root is appended unless already gathered. */
  lemma RootsStep(entries: seq<string>, k: nat, found: Option<string>)
    requires k < |entries| && found == EntryPrefix(entries[k])
    ensures Roots(entries[..k + 1])
      == if found.Some? && found.value !in Roots(entries[..k]) then Roots(entries[..k]) + [found.value]
         else Roots(entries[..k])
  {
    assert entries[..k + 1][..k] == entries[..k];
  }

  /** Overwriting entry `k` with its rewritten form moves the boundary between done and pending by one. */
  lemma OverwriteStep(done: seq<string>, todo: seq<string>, k: nat, v: string)
    requires |done| == |todo| && k < |done| && v == done[k]
    ensures (done[..k] + todo[k..])[k := v] == done[..k + 1] + todo[k + 1..]
  {
  }

  /**
   * buildGoGenerateCommandData: rewrites every entry of `miscDirs` in place to
   * its normalised form and returns the deduplicated `-prefix` roots, using a
   * set of roots already seen.
   */
  method BuildGoGenerateCommandData(miscDirs: array<string>) returns (prefixes: seq<string>)
    modifies miscDirs
    ensures miscDirs[..] == NormalizeAll(old(miscDirs[..]))
    ensures prefixes == Roots(miscDirs[..])
  {
    ghost var dirs := miscDirs[..];
    ghost var normalized := NormalizeAll(dirs);
    var uniquePrefixes: set<string> := {};
    prefixes := [];
    for k := 0 to miscDirs.Length
      invariant miscDirs[..] == normalized[..k] + dirs[k..]
      invariant prefixes == Roots(normalized[..k])
      invariant forall p :: p in uniquePrefixes <==> p in prefixes
    {
      assert miscDirs[k] == dirs[k];
      var v := NormalizeEntry(miscDirs[k]);
      var found := FindPrefix(v);
      RootsStep(normalized, k, found);
      prefixes, uniquePrefixes := AppendNew(found, prefixes, uniquePrefixes);
      assert v == normalized[k];
      OverwriteStep(normalized, dirs, k, v);
      miscDirs[k] := v;
    }
    assert normalized[..miscDirs.Length] == normalized;
  }
}
