/** The slug generator on some sample names. Each step is stated as its own
    small lemma so that the verifier only ever evaluates the generator on
    short literals. */
module UrlSlugExamples {
  import opened UrlSlug
  import opened UrlSlugProperties

  /** Two names that lower-case alike have the same slug. */
  lemma SameLowerCaseSameSlug(name: string, other: string)
    requires ToLower(name) == ToLower(other)
    ensures GenerateUrlSlug(name) == GenerateUrlSlug(other)
  {
  }

  /** A name whose lower-cased form is already a slug has that slug. */
  lemma LowerCaseSlug(name: string, slug: string)
    requires ToLower(name) == slug && IsSlug(slug)
    ensures GenerateUrlSlug(name) == slug
  {
    assert ToLower(slug) == slug;
    SameLowerCaseSameSlug(name, slug);
    SlugFixedPoint(slug);
  }

  lemma ExampleEmpty()
    ensures GenerateUrlSlug("") == ""
  {
  }

  lemma NewNameLowered() ensures ToLower("New Name") == "new name" {}
  lemma NewNameTrimmed() ensures Trim("new name") == "new name" {}
  lemma NewNameDashed() ensures ReplaceWhitespaceRuns("new name") == "new-name" {
    RunDashed("new", " ", "name");
    assert "new" + " " + "name" == "new name";
    assert "new" + "-" + "name" == "new-name";
  }
  lemma NewNameKept() ensures RemoveNonWord("new-name") == "new-name" {}
  lemma NewNameCollapsed() ensures CollapseHyphens("new-name") == "new-name" {
    CollapseHyphensIdentity("new-name");
  }

  lemma ExampleNewName()
    ensures GenerateUrlSlug("New Name") == "new-name"
  {
    NewNameLowered();
    NewNameTrimmed();
    NewNameDashed();
    NewNameKept();
    NewNameCollapsed();
  }

  lemma LeadingSymbolLowered() ensures ToLower("& x") == "& x" {}
  lemma LeadingSymbolTrimmed() ensures Trim("& x") == "& x" {}
  lemma LeadingSymbolDashed() ensures ReplaceWhitespaceRuns("& x") == "&-x" {}
  lemma LeadingSymbolRemoved() ensures RemoveNonWord("&-x") == "-x" {}
  lemma LeadingSymbolCollapsed() ensures CollapseHyphens("-x") == "-x" {}

  /** A symbol before the first space leaves a leading hyphen. */
  lemma ExampleLeadingHyphen()
    ensures GenerateUrlSlug("& x") == "-x"
  {
    LeadingSymbolLowered();
    LeadingSymbolTrimmed();
    LeadingSymbolDashed();
    LeadingSymbolRemoved();
    LeadingSymbolCollapsed();
  }

  lemma MultiSpaceLowered() ensures ToLower("  Multi   Space  ") == "  multi   space  " {}
  lemma MultiSpaceTrimmed() ensures Trim("  multi   space  ") == "multi   space" {
    MultiSpaceSplit();
    TrimSurrounded("  ", "multi   space", "  ");
  }
  lemma MultiSpaceSplit() ensures "  " + "multi   space" + "  " == "  multi   space  " {}
  lemma MultiSpaceDashed() ensures ReplaceWhitespaceRuns("multi   space") == "multi-space" {
    RunDashed("multi", "   ", "space");
    assert "multi" + "   " + "space" == "multi   space";
    assert "multi" + "-" + "space" == "multi-space";
  }
  lemma MultiKept() ensures RemoveNonWord("multi") == "multi" {}
  lemma SpaceKept() ensures RemoveNonWord("space") == "space" {}
  lemma MultiSpaceKept() ensures RemoveNonWord("multi-space") == "multi-space" {
    RemoveNonWordKeeps("multi", '-', "space");
    MultiKept();
    SpaceKept();
    assert "multi" + ['-'] + "space" == "multi-space";
  }
  lemma MultiSpaceCollapsed() ensures CollapseHyphens("multi-space") == "multi-space" {
    CollapseHyphensIdentity("multi-space");
  }

  /** Whitespace around and inside a name leaves no stray hyphen: the
      surrounding runs are trimmed and the inner run becomes one hyphen. */
  lemma ExampleMultiSpace()
    ensures GenerateUrlSlug("  Multi   Space  ") == "multi-space"
  {
    MultiSpaceLowered();
    MultiSpaceTrimmed();
    MultiSpaceDashed();
    MultiSpaceKept();
    MultiSpaceCollapsed();
  }

  lemma ElecLowered() ensures ToLower("Elec") == "elec" {}
  lemma TronicsLowered() ensures ToLower("tronics") == "tronics" {}
  lemma ElectronicsLowered() ensures ToLower("Electronics") == "electronics" {
    ElecLowered();
    TronicsLowered();
    ToLowerAppend("Elec", "tronics");
  }
  lemma ElectronicsIsSlug() ensures IsSlug("electronics") {}

  lemma ExampleElectronics()
    ensures GenerateUrlSlug("Electronics") == "electronics"
  {
    ElectronicsLowered();
    ElectronicsIsSlug();
    LowerCaseSlug("Electronics", "electronics");
  }

  lemma AlreadySluggedIsSlug() ensures IsSlug("already-slugged_123") {}

  /** A name that is already a slug comes back unchanged. */
  lemma ExampleAlreadySlugged()
    ensures GenerateUrlSlug("already-slugged_123") == "already-slugged_123"
  {
    AlreadySluggedIsSlug();
    SlugFixedPoint("already-slugged_123");
  }

  lemma AlreadySluggedLowered() ensures ToLower("Already-slugged_123") == "already-slugged_123" {
    var name, slug := "Already-slugged_123", "already-slugged_123";
    AlreadySluggedIsSlug();
    assert name[1..] == slug[1..];
    forall i | 0 <= i < |name|
      ensures ToLower(name)[i] == slug[i]
    {
      if i > 0 {
        assert name[i] == name[1..][i - 1] == slug[1..][i - 1] == slug[i];
      }
    }
  }

  /** A capitalised slug is lower-cased and otherwise kept. */
  lemma ExampleCapitalisedSlug()
    ensures GenerateUrlSlug("Already-slugged_123") == "already-slugged_123"
  {
    AlreadySluggedLowered();
    AlreadySluggedIsSlug();
    LowerCaseSlug("Already-slugged_123", "already-slugged_123");
  }

  lemma SpacedSymbolLowered() ensures ToLower("A & B") == "a & b" {}
  lemma SpacedSymbolTrimmed() ensures Trim("a & b") == "a & b" {}
  lemma SpacedSymbolDashed() ensures ReplaceWhitespaceRuns("a & b") == "a-&-b" {}
  lemma SpacedSymbolRemoved() ensures RemoveNonWord("a-&-b") == "a--b" {}
  lemma SpacedSymbolCollapsed() ensures CollapseHyphens("a--b") == "a-b" {}

  /** A symbol between two spaces leaves two hyphens, which step 4 merges. */
  lemma ExampleSpacedSymbol()
    ensures GenerateUrlSlug("A & B") == "a-b"
  {
    SpacedSymbolLowered();
    SpacedSymbolTrimmed();
    SpacedSymbolDashed();
    SpacedSymbolRemoved();
    SpacedSymbolCollapsed();
  }

  lemma SymbolsOnlyLowered() ensures ToLower("&&&") == "&&&" {}
  lemma SymbolsOnlyTrimmed() ensures Trim("&&&") == "&&&" {}
  lemma SymbolsOnlyUndashed() ensures ReplaceWhitespaceRuns("&&&") == "&&&" {}
  lemma SymbolsOnlyRemoved() ensures RemoveNonWord("&&&") == "" {}

  /** A name of symbols only has the empty slug. */
  lemma ExampleSymbolsOnly()
    ensures GenerateUrlSlug("&&&") == ""
  {
    SymbolsOnlyLowered();
    SymbolsOnlyTrimmed();
    SymbolsOnlyUndashed();
    SymbolsOnlyRemoved();
  }
}
