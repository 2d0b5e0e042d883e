/**
 * The go:generate comment and the per-platform files that carry it. The
 * comment installs go-bindata and runs it over three built-in asset
 * directories followed by the configured ones, with the `-prefix` roots that
 * the configured ones give. Each platform key of VendorMiscDirs other than
 * "*" gets a file `main_<os>.go` (or `main_non<os>.go` for a negated key)
 * made of a build constraint, the package clause, the comment and whatever an
 * existing file holds from its first `import ` on.
 */
module Comment {
  import opened Wrappers
  import opened GoStrings
  import opened Generate
  import opened Seqs

  const InstallLine := "//go:generate go install github.com/admpub/bindata/v3/go-bindata@latest\n"

  const BindataLine := @"//go:generate go-bindata -fs -o bindata_assetfs.go -ignore ""\\.(git|svn|DS_Store|less|scss|gitkeep)$"" -minify ""\\.(js|css)$"" -tags bindata"

  /** The asset directories every generated comment starts with. */
  const BuiltInDirs := ["public/assets/", "template/", "config/i18n/"]

  /** The same directories as go-bindata patterns. */
  const BuiltInPatterns := ["public/assets/...", "template/...", "config/i18n/..."]

  /** genComment */
  function GenComment(vendorMiscDirs: seq<string>): string {
    var dirs := BuiltInDirs + vendorMiscDirs;
    InstallLine + BindataLine
      + " -prefix \"" + Join(Prefixes(dirs), "|") + "\" "
      + Join(NormalizeAll(dirs), " ")
  }

  lemma NormalizeAllAppend(a: seq<string>, b: seq<string>)
    ensures NormalizeAll(a + b) == NormalizeAll(a) + NormalizeAll(b)
  {
    var n, na, nb := NormalizeAll(a + b), NormalizeAll(a), NormalizeAll(b);
    forall i | 0 <= i < |a|
      ensures n[i] == na[i]
    {
      assert (a + b)[i] == a[i];
    }
    forall i | |a| <= i < |a + b|
      ensures n[i] == nb[i - |a|]
    {
      assert (a + b)[i] == b[i - |a|];
    }
    assert n == na + nb;
  }

  lemma DropLastConcat(a: seq<string>, b: seq<string>)
    requires |b| > 0
    ensures (a + b)[..|a + b| - 1] == a + b[..|b| - 1]
    ensures (a + b)[|a + b| - 1] == b[|b| - 1]
  {
  }

  /** Entries without a root gather no roots. */
  lemma {:induction false} RootsOfRootless(a: seq<string>)
    requires forall i :: 0 <= i < |a| ==> EntryPrefix(a[i]) == None
    ensures Roots(a) == []
  {
    if a != [] {
      RootsOfRootless(a[..|a| - 1]);
    }
  }

  /** Leading entries without a root do not change the roots of what follows. */
  lemma {:induction false} RootsAfterRootless(a: seq<string>, b: seq<string>)
    requires forall i :: 0 <= i < |a| ==> EntryPrefix(a[i]) == None
    ensures Roots(a + b) == Roots(b)
  {
    if b == [] {
      assert a + b == a;
      RootsOfRootless(a);
    } else {
      DropLastConcat(a, b);
      RootsAfterRootless(a, b[..|b| - 1]);
    }
  }

  /** An entry that is not under vendor/ and holds no `../` has no root. */
  lemma NoRoot(v: string)
    requires !HasPrefix(v, "vendor/") && Index(v, "../") == -1
    ensures EntryPrefix(v) == None
  {
  }

  lemma PublicAssetsPattern()
    ensures Normalize("public/assets/") == "public/assets/..."
  {
  }

  lemma TemplatePattern()
    ensures Normalize("template/") == "template/..."
  {
  }

  lemma I18nPattern()
    ensures Normalize("config/i18n/") == "config/i18n/..."
  {
  }

  lemma PublicAssetsRootless()
    ensures EntryPrefix("public/assets/...") == None
  {
    assert NoDotDotSlash("public/assets/...");
    NoDotDotSlashIndex("public/assets/...");
    assert "public/assets/..."[0] != "vendor/"[0];
    NoRoot("public/assets/...");
  }

  lemma TemplateRootless()
    ensures EntryPrefix("template/...") == None
  {
    assert NoDotDotSlash("template/...");
    NoDotDotSlashIndex("template/...");
    assert "template/..."[0] != "vendor/"[0];
    NoRoot("template/...");
  }

  lemma I18nRootless()
    ensures EntryPrefix("config/i18n/...") == None
  {
    assert NoDotDotSlash("config/i18n/...");
    NoDotDotSlashIndex("config/i18n/...");
    assert "config/i18n/..."[0] != "vendor/"[0];
    NoRoot("config/i18n/...");
  }

  /** The built-in directories become their patterns. */
  lemma BuiltInsNormalized()
    ensures NormalizeAll(BuiltInDirs) == BuiltInPatterns
  {
    PublicAssetsPattern();
    TemplatePattern();
    I18nPattern();
    var n := NormalizeAll(BuiltInDirs);
    assert n[0] == BuiltInPatterns[0] && n[1] == BuiltInPatterns[1] && n[2] == BuiltInPatterns[2];
  }

  /** None of the built-in patterns has a root. */
  lemma BuiltInsRootless()
    ensures forall i :: 0 <= i < |BuiltInPatterns| ==> EntryPrefix(BuiltInPatterns[i]) == None
  {
    PublicAssetsRootless();
    TemplateRootless();
    I18nRootless();
    forall i | 0 <= i < |BuiltInPatterns|
      ensures EntryPrefix(BuiltInPatterns[i]) == None
    {
      assert i == 0 || i == 1 || i == 2;
    }
  }

  /**
   * The comment is the two fixed lines, the roots of the configured
   * directories alone (the built-in ones never give one) joined by '|', and
   * the built-in patterns followed by the configured directories' patterns,
   * in their order, joined by spaces.
   */
  lemma GenCommentLayout(vendorMiscDirs: seq<string>)
    ensures GenComment(vendorMiscDirs)
      == InstallLine + BindataLine
         + " -prefix \"" + Join(Prefixes(vendorMiscDirs), "|") + "\" "
         + Join(BuiltInPatterns + NormalizeAll(vendorMiscDirs), " ")
  {
    NormalizeAllAppend(BuiltInDirs, vendorMiscDirs);
    BuiltInsNormalized();
    BuiltInsRootless();
    RootsAfterRootless(BuiltInPatterns, NormalizeAll(vendorMiscDirs));
  }

  /** The name of the file generated for a platform key: `main_<os>.go`, or `main_non<os>.go` for `!<os>`. */
  function GeneratedFileName(osName: string): (r: string)
    ensures HasPrefix(r, "main_") && HasSuffix(r, ".go")
  {
    "main_" + (if HasPrefix(osName, "!") then "non" + TrimPrefix(osName, "!") else osName) + ".go"
  }

  lemma FileNameMiddle(osName: string)
    ensures var r := GeneratedFileName(osName);
      r[5..|r| - 3] == if HasPrefix(osName, "!") then "non" + osName[1..] else osName
  {
  }

  /** Distinct keys that are not negations get distinct files. */
  lemma PlainFileNamesDistinct(a: string, b: string)
    requires !HasPrefix(a, "!") && !HasPrefix(b, "!") && a != b
    ensures GeneratedFileName(a) != GeneratedFileName(b)
  {
    FileNameMiddle(a);
    FileNameMiddle(b);
  }

  /** A negated key and its plain form get distinct files. */
  lemma NegatedFileNameDistinct(osName: string)
    ensures GeneratedFileName("!" + osName) != GeneratedFileName(osName)
  {
    FileNameMiddle("!" + osName);
    FileNameMiddle(osName);
    assert ("!" + osName)[1..] == osName;
    if HasPrefix(osName, "!") {
      assert |"non" + ("!" + osName)[1..]| != |"non" + osName[1..]|;
    } else {
      assert |"non" + osName| != |osName|;
    }
  }

  /** The negation of `x` and the plain key `nonx` share one file. */
  lemma NegationShadowsNonKey(x: string)
    ensures GeneratedFileName("!" + x) == GeneratedFileName("non" + x)
  {
    assert TrimPrefix("!" + x, "!") == x;
    assert ("non" + x)[0] == 'n';
  }

  /**
   * The directories of one platform: the shared ones under "*", then its
   * own; a missing key reads as an empty list, as a Go map lookup does.
   */
  function DirsFor(vendorMiscDirs: map<string, seq<string>>, osName: string): (r: seq<string>)
    ensures |r| == (if osName in vendorMiscDirs then |vendorMiscDirs[osName]| else 0)
                   + (if "*" in vendorMiscDirs then |vendorMiscDirs["*"]| else 0)
    ensures "*" in vendorMiscDirs ==> vendorMiscDirs["*"] <= r
    ensures osName in vendorMiscDirs ==> r[|r| - |vendorMiscDirs[osName]|..] == vendorMiscDirs[osName]
  {
    (if "*" in vendorMiscDirs then vendorMiscDirs["*"] else [])
    + (if osName in vendorMiscDirs then vendorMiscDirs[osName] else [])
  }

  /** What the generated file starts with: build constraint, package clause and comment. */
  function FileHeader(osName: string, dirs: seq<string>): (r: string)
    ensures HasSuffix(r, "\n\n")
  {
    "//go:build " + osName + "\n\n" + "package main\n\n" + GenComment(dirs) + "\n\n"
  }

  /**
   * The new content of a generated file: the header, then the text of the
   * existing file (if it could be read) from its first `import ` on.
   */
  function GeneratedFileContent(header: string, existing: Option<string>): (r: string)
    ensures HasPrefix(r, header)
  {
    if existing.Some? && Index(existing.value, "import ") > -1 then
      header + existing.value[Index(existing.value, "import ")..]
    else header
  }

  /**
   * What follows the header is the existing text from its first `import `
   * on, or nothing when there is no existing text or it holds no `import `.
   */
  lemma ContentTail(header: string, existing: Option<string>)
    ensures var tail := GeneratedFileContent(header, existing)[|header|..];
      (tail == [] || OccursAt(tail, "import ", 0))
      && (existing.Some? && Index(existing.value, "import ") >= 0 ==>
            tail == existing.value[Index(existing.value, "import ")..])
      && (existing.None? || Index(existing.value, "import ") < 0 ==> tail == [])
  {
    var r := GeneratedFileContent(header, existing);
    if existing.Some? && Index(existing.value, "import ") > -1 {
      var text := existing.value;
      var pos := Index(text, "import ");
      assert r[|header|..] == text[pos..];
      assert text[pos..][..7] == text[pos..pos + 7];
    }
  }

  /**
   * Regenerating a file from its own output gives the same output, as long
   * as the header holds no `import ` and ends in a newline (as FileHeader does).
   */
  lemma RegenerationIdempotent(header: string, existing: Option<string>)
    requires Index(header, "import ") == -1
    requires |header| >= 1 && header[|header| - 1] == '\n'
    ensures var once := GeneratedFileContent(header, existing);
      GeneratedFileContent(header, Some(once)) == once
  {
    var once := GeneratedFileContent(header, existing);
    var tail := once[|header|..];
    ContentTail(header, existing);
    assert once == header + tail;
    if tail != [] {
      IndexAfter(header, tail, "import ");
      assert once[|header|..] == tail;
    }
  }

  /**
   * One visit of a loop that rewrites files: a visited key replaces its file
   * with new content computed from what the file held (None when it could
   * not be read). The directory is a map from file name to content.
   */
  function Visit(files: map<string, string>, k: string, visited: string -> bool,
                 nameOf: string -> string, rewrite: (string, Option<string>) -> string): map<string, string> {
    if !visited(k) then files
    else
      var name := nameOf(k);
      files[name := rewrite(k, if name in files then Some(files[name]) else None)]
  }

  /** The directory after visiting `keys` in order. */
  function VisitAll(files: map<string, string>, keys: seq<string>, visited: string -> bool,
                    nameOf: string -> string, rewrite: (string, Option<string>) -> string): map<string, string>
    decreases |keys|
  {
    if keys == [] then files
    else Visit(VisitAll(files, keys[..|keys| - 1], visited, nameOf, rewrite), keys[|keys| - 1], visited, nameOf, rewrite)
  }

  /** Visiting `a` then `b` is visiting `a + b`. */
  lemma {:induction false} VisitAllAppend(files: map<string, string>, a: seq<string>, b: seq<string>, visited: string -> bool,
                                          nameOf: string -> string, rewrite: (string, Option<string>) -> string)
    ensures VisitAll(files, a + b, visited, nameOf, rewrite)
      == VisitAll(VisitAll(files, a, visited, nameOf, rewrite), b, visited, nameOf, rewrite)
    decreases |b|
  {
    if b == [] {
      assert a + b == a;
    } else {
      assert (a + b)[..|a + b| - 1] == a + b[..|b| - 1];
      VisitAllAppend(files, a, b[..|b| - 1], visited, nameOf, rewrite);
    }
  }

  /** Keys that do not write `name` leave that file as it was, present or not. */
  lemma {:induction false} VisitAllElsewhere(files: map<string, string>, keys: seq<string>, visited: string -> bool,
                                             nameOf: string -> string, rewrite: (string, Option<string>) -> string, name: string)
    requires forall k :: k in keys && visited(k) ==> nameOf(k) != name
    ensures var r := VisitAll(files, keys, visited, nameOf, rewrite);
      (name in r <==> name in files) && (name in files ==> r[name] == files[name])
    decreases |keys|
  {
    if keys != [] {
      VisitAllElsewhere(files, keys[..|keys| - 1], visited, nameOf, rewrite, name);
    }
  }

  /**
   * After the visits a file exists exactly when it existed before or a
   * visited key writes it, and a file a key wrote holds the new content of
   * such a key.
   */
  lemma {:induction false} VisitAllSpec(files: map<string, string>, keys: seq<string>, visited: string -> bool,
                                        nameOf: string -> string, rewrite: (string, Option<string>) -> string)
    ensures var r := VisitAll(files, keys, visited, nameOf, rewrite);
      (forall n :: n in r <==> n in files || exists k :: k in keys && visited(k) && nameOf(k) == n)
      && (forall n :: n in r ==>
            (n in files && r[n] == files[n])
            || exists k, e :: k in keys && visited(k) && nameOf(k) == n && r[n] == rewrite(k, e))
    decreases |keys|
  {
    if keys != [] {
      var init := keys[..|keys| - 1];
      assert keys == init + [keys[|keys| - 1]];
      VisitAllSpec(files, init, visited, nameOf, rewrite);
    }
  }

  /** The only visited key that writes its file leaves it as its own new content over the old text. */
  lemma VisitAllOwn(files: map<string, string>, keys: seq<string>, visited: string -> bool,
                    nameOf: string -> string, rewrite: (string, Option<string>) -> string, i: nat)
    requires i < |keys| && visited(keys[i])
    requires forall j :: 0 <= j < |keys| && j != i && visited(keys[j]) ==> nameOf(keys[j]) != nameOf(keys[i])
    ensures var name := nameOf(keys[i]);
      var r := VisitAll(files, keys, visited, nameOf, rewrite);
      name in r && r[name] == rewrite(keys[i], if name in files then Some(files[name]) else None)
  {
    var k, name := keys[i], nameOf(keys[i]);
    var before, after := keys[..i], keys[i + 1..];
    assert keys == before + [k] + after;
    forall j | j in before && visited(j) ensures nameOf(j) != name {
      var x :| 0 <= x < i && before[x] == j;
      assert keys[x] == j;
    }
    forall j | j in after && visited(j) ensures nameOf(j) != name {
      var x :| 0 <= x < |after| && after[x] == j;
      assert keys[i + 1 + x] == j;
    }
    VisitAllAppend(files, before + [k], after, visited, nameOf, rewrite);
    assert (before + [k])[..|before + [k]| - 1] == before;
    VisitAllElsewhere(files, before, visited, nameOf, rewrite, name);
    VisitAllElsewhere(VisitAll(files, before + [k], visited, nameOf, rewrite), after, visited, nameOf, rewrite, name);
  }

  /** The loop over VendorMiscDirs visits every platform key but "*". */
  predicate Visited(vendorMiscDirs: map<string, seq<string>>, osName: string) {
    osName != "*" && osName in vendorMiscDirs
  }

  /** What a platform's file holds after the loop wrote it over `existing`. */
  function PlatformContent(vendorMiscDirs: map<string, seq<string>>, osName: string, existing: Option<string>): string {
    GeneratedFileContent(FileHeader(osName, DirsFor(vendorMiscDirs, osName)), existing)
  }

  /** The project directory after the loop has visited the keys in `order`, Go's map order. */
  function WriteFiles(files: map<string, string>, vendorMiscDirs: map<string, seq<string>>, order: seq<string>): map<string, string> {
    VisitAll(files, order, k => Visited(vendorMiscDirs, k), GeneratedFileName,
             (k, e) => PlatformContent(vendorMiscDirs, k, e))
  }

  /** One more key visited: its file is rewritten over what the earlier keys left, unless the key is skipped. */
  lemma WriteFilesStep(files: map<string, string>, vendorMiscDirs: map<string, seq<string>>, order: seq<string>, i: nat)
    requires i < |order|
    ensures var w, k := WriteFiles(files, vendorMiscDirs, order[..i]), order[i];
      var name := GeneratedFileName(k);
      WriteFiles(files, vendorMiscDirs, order[..i + 1])
      == if Visited(vendorMiscDirs, k)
         then w[name := PlatformContent(vendorMiscDirs, k, if name in w then Some(w[name]) else None)]
         else w
  {
    assert order[..i + 1][..i] == order[..i];
  }

  /**
   * makeGenerateCommandComment: visits the platform keys in `order` and
   * rewrites each platform's file, skipping "*". A failed read leaves no
   * old text; writes are taken to succeed.
   */
  method MakeGenerateCommandComment(vendorMiscDirs: map<string, seq<string>>, order: seq<string>, files: map<string, string>)
    returns (written: map<string, string>)
    ensures written == WriteFiles(files, vendorMiscDirs, order)
  {
    written := files;
    for i := 0 to |order|
      invariant written == WriteFiles(files, vendorMiscDirs, order[..i])
    {
      WriteFilesStep(files, vendorMiscDirs, order, i);
      var osName := order[i];
      if osName != "*" && osName in vendorMiscDirs {
        var dirs := DirsFor(vendorMiscDirs, osName);
        var fileName := GeneratedFileName(osName);
        var fileContent := FileHeader(osName, dirs);
        var existing := if fileName in written then Some(written[fileName]) else None;
        written := written[fileName := GeneratedFileContent(fileContent, existing)];
      }
    }
    assert order[..|order|] == order;
  }

  /**
   * After the loop a file exists exactly when it existed before or a
   * platform key other than "*" names it; every file the loop wrote starts
   * with the header of a key that names it.
   */
  lemma WriteFilesSpec(files: map<string, string>, vendorMiscDirs: map<string, seq<string>>, order: seq<string>)
    ensures var r := WriteFiles(files, vendorMiscDirs, order);
      (forall n :: n in r <==> n in files || exists k :: k in order && Visited(vendorMiscDirs, k) && GeneratedFileName(k) == n)
      && (forall n :: n in r ==>
            (n in files && r[n] == files[n])
            || exists k :: k in order && Visited(vendorMiscDirs, k) && GeneratedFileName(k) == n
                 && HasPrefix(r[n], FileHeader(k, DirsFor(vendorMiscDirs, k))))
  {
    var visited, rewrite := k => Visited(vendorMiscDirs, k), (k, e) => PlatformContent(vendorMiscDirs, k, e);
    var r := WriteFiles(files, vendorMiscDirs, order);
    VisitAllSpec(files, order, visited, GeneratedFileName, rewrite);
    forall n | n in r && !(n in files && r[n] == files[n])
      ensures exists k :: k in order && Visited(vendorMiscDirs, k) && GeneratedFileName(k) == n
                && HasPrefix(r[n], FileHeader(k, DirsFor(vendorMiscDirs, k)))
    {
      var k, e :| k in order && visited(k) && GeneratedFileName(k) == n && r[n] == rewrite(k, e);
      assert r[n] == PlatformContent(vendorMiscDirs, k, e);
    }
  }

  /** A file no visited key names is left exactly as it was. */
  lemma WriteFilesElsewhere(files: map<string, string>, vendorMiscDirs: map<string, seq<string>>, order: seq<string>, name: string)
    requires forall k :: k in order && Visited(vendorMiscDirs, k) ==> GeneratedFileName(k) != name
    ensures var r := WriteFiles(files, vendorMiscDirs, order);
      (name in r <==> name in files) && (name in files ==> r[name] == files[name])
  {
    VisitAllElsewhere(files, order, k => Visited(vendorMiscDirs, k), GeneratedFileName,
                      (k, e) => PlatformContent(vendorMiscDirs, k, e), name);
  }

  /**
   * When a key is the only visited key that names its file, the file ends
   * up as that key's header followed by the old file's text from its first
   * `import ` on, so no other platform's content leaks into it.
   */
  lemma WriteFilesOwnFile(files: map<string, string>, vendorMiscDirs: map<string, seq<string>>, order: seq<string>, i: nat)
    requires i < |order| && Visited(vendorMiscDirs, order[i])
    requires forall j :: 0 <= j < |order| && j != i && Visited(vendorMiscDirs, order[j]) ==>
      GeneratedFileName(order[j]) != GeneratedFileName(order[i])
    ensures var k := order[i];
      var name := GeneratedFileName(k);
      var r := WriteFiles(files, vendorMiscDirs, order);
      name in r
      && r[name] == GeneratedFileContent(FileHeader(k, DirsFor(vendorMiscDirs, k)), if name in files then Some(files[name]) else None)
  {
    VisitAllOwn(files, order, k => Visited(vendorMiscDirs, k), GeneratedFileName,
                (k, e) => PlatformContent(vendorMiscDirs, k, e), i);
  }
}
