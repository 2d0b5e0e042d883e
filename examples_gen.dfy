/** The relative entry of the repository's own test, worked through the general lemmas. */
module GenerateExamples {
  import opened Wrappers
  import opened GoStrings
  import opened Generate
  import opened Seqs

  lemma TestRunLiteral()
    ensures DotDots(3) == "../../../"
  {
  }

  lemma TestRootLiteral()
    ensures RepoRoot("github.com", "admpub", "nging") == "github.com/admpub/nging/"
  {
  }

  lemma TestEntrySplit()
    ensures "../../../github.com/admpub/nging/template/..."
      == "../../../github.com/admpub/nging/" + "template/..."
  {
  }

  lemma TestRootSplit()
    ensures "../../../github.com/admpub/nging/" == "../../../" + "github.com/admpub/nging/"
  {
  }

  lemma TestEntryTail()
    ensures Index("github.com/admpub/nging/" + "template/...", "../") == -1
  {
    assert NoDotDotSlash("github.com/admpub/");
    assert NoDotDotSlash("nging/template/...");
    NoDotDotSlashConcat("github.com/admpub/", "nging/template/...");
    assert "github.com/admpub/nging/" + "template/..." == "github.com/admpub/" + "nging/template/...";
    NoDotDotSlashIndex("github.com/admpub/" + "nging/template/...");
  }

  /**
   * The entry of the repository's own test: a three-step relative entry
   * already in pattern form is kept as it is and yields its run and
   * repository as the only root.
   */
  lemma RelativeEntryExample()
    ensures NormalizeAll(["../../../github.com/admpub/nging/template/..."])
      == ["../../../github.com/admpub/nging/template/..."]
    ensures Roots(["../../../github.com/admpub/nging/template/..."])
      == ["../../../github.com/admpub/nging/"]
  {
    TestRunLiteral();
    TestRootLiteral();
    TestEntrySplit();
    TestRootSplit();
    TestEntryTail();
    AppendAssoc("../../../", "github.com/admpub/nging/", "template/...");
    DotDotRepoEntry(3, "github.com", "admpub", "nging", "template/...");
    RootsOfOne("../../../github.com/admpub/nging/template/...");
  }
}
