/**
 The Add | Generate and Add | Import menus. Both list the reference filters of
 the generation category in ascending name order; Import keeps the names that
 contain "Import" and shows each without its last seven characters, Generate
 keeps the others that take no inputs.
 */
module FilterMenus {
  import opened Strings

  datatype Category = Generation | OtherCategory(code: nat)

  /** What the menus ask of a reference filter: its category and its input count. */
  datatype FilterInfo = FilterInfo(category: Category, inputCount: nat)

  /** An Add-menu item: the caption shown and the filter created when it is chosen. */
  datatype MenuEntry = MenuEntry(caption: string, filterName: string)

  const ImportWord: string := "Import"

  /** `strlen(" Import")` */
  const ImportSuffixLength: nat := 7

  predicate IsGeneration(refs: map<string, FilterInfo>, n: string)
  {
    n in refs && refs[n].category == Generation
  }

  /** `sortedNames`: the generation-category names, ascending, each once. */
  method GenerationNames(refs: map<string, FilterInfo>) returns (names: seq<string>)
    ensures StrictlySorted(names)
    ensures forall n :: n in names <==> IsGeneration(refs, n)
  {
    names := [];
    var todo := refs.Keys;
    while todo != {}
      invariant todo <= refs.Keys
      invariant StrictlySorted(names)
      invariant forall n :: n in names <==> n in refs.Keys - todo && IsGeneration(refs, n)
      decreases todo
    {
      var n :| n in todo;
      if refs[n].category == Generation {
        names := InsertSorted(names, n);
      }
      todo := todo - {n};
    }
  }

  /**
   `fname.substr(0, fname.size() - strlen(" Import"))`: for names shorter than
   seven characters the unsigned subtraction wraps and the whole name is kept.
   */
  function ShortName(fname: string): (r: string)
    ensures |fname| >= ImportSuffixLength ==> |r| == |fname| - ImportSuffixLength && r == fname[..|r|]
    ensures |fname| < ImportSuffixLength ==> r == fname
  {
    if |fname| >= ImportSuffixLength then fname[..|fname| - ImportSuffixLength] else fname
  }

  /** A name ending in " Import" is shown as what precedes that suffix. */
  lemma ShortNameDropsSuffix(base: string)
    ensures ShortName(base + " Import") == base
    ensures Contains(base + " Import", ImportWord)
  {
    var n := base + " Import";
    assert n[..|base|] == base;
    assert OccursAt(n, ImportWord, |base| + 1) by {
      assert n[|base| + 1..|base| + 7] == ImportWord;
    }
    ContainsIffOccurs(n, ImportWord);
  }

  /** The Import menu over the sorted names: import filters only, shortened labels. */
  function ImportMenu(sortedNames: seq<string>): (r: seq<MenuEntry>)
    ensures forall e :: e in r ==>
      e.filterName in sortedNames && Contains(e.filterName, ImportWord) && e.caption == ShortName(e.filterName)
    ensures forall n :: n in sortedNames && Contains(n, ImportWord) ==> MenuEntry(ShortName(n), n) in r
    decreases |sortedNames|
  {
    if |sortedNames| == 0 then []
    else
      var n := sortedNames[|sortedNames| - 1];
      var init := sortedNames[..|sortedNames| - 1];
      assert forall x :: x in sortedNames ==> x in init || x == n;
      ImportMenu(init) + (if Contains(n, ImportWord) then [MenuEntry(ShortName(n), n)] else [])
  }

  /** The Generate menu over the sorted names: no import filters, no filters with inputs. */
  function GenerateMenu(sortedNames: seq<string>, refs: map<string, FilterInfo>): (r: seq<string>)
    requires forall n :: n in sortedNames ==> n in refs
    ensures forall n :: n in r <==> n in sortedNames && !Contains(n, ImportWord) && refs[n].inputCount == 0
    decreases |sortedNames|
  {
    if |sortedNames| == 0 then []
    else
      var n := sortedNames[|sortedNames| - 1];
      var init := sortedNames[..|sortedNames| - 1];
      assert forall x :: x in sortedNames ==> x in init || x == n;
      GenerateMenu(init, refs) + (if !Contains(n, ImportWord) && refs[n].inputCount == 0 then [n] else [])
  }

  /** Keeping a subset of an ascending list by a test leaves it ascending. */
  lemma {:induction false} GenerateMenuSorted(sortedNames: seq<string>, refs: map<string, FilterInfo>)
    requires forall n :: n in sortedNames ==> n in refs
    requires StrictlySorted(sortedNames)
    ensures StrictlySorted(GenerateMenu(sortedNames, refs))
    decreases |sortedNames|
  {
    if |sortedNames| > 0 {
      var n := sortedNames[|sortedNames| - 1];
      var init := sortedNames[..|sortedNames| - 1];
      GenerateMenuSorted(init, refs);
      var r := GenerateMenu(sortedNames, refs);
      var ri := GenerateMenu(init, refs);
      forall x | x in ri ensures StrLt(x, n) {
        var k :| 0 <= k < |init| && init[k] == x;
        assert sortedNames[k] == x;
      }
      if r != ri {
        forall a, b | 0 <= a < b < |r| ensures StrLt(r[a], r[b]) {
          if b == |ri| { assert r[a] == ri[a] && r[a] in ri; }
          else { assert r[a] == ri[a] && r[b] == ri[b]; }
        }
      }
    }
  }

  /** Import entries keep the ascending order of their filter names. */
  lemma {:induction false} ImportMenuSorted(sortedNames: seq<string>)
    requires StrictlySorted(sortedNames)
    ensures forall a, b :: 0 <= a < b < |ImportMenu(sortedNames)| ==>
      StrLt(ImportMenu(sortedNames)[a].filterName, ImportMenu(sortedNames)[b].filterName)
    decreases |sortedNames|
  {
    if |sortedNames| > 0 {
      var n := sortedNames[|sortedNames| - 1];
      var init := sortedNames[..|sortedNames| - 1];
      ImportMenuSorted(init);
      var r := ImportMenu(sortedNames);
      var ri := ImportMenu(init);
      forall e | e in ri ensures StrLt(e.filterName, n) {
        var k :| 0 <= k < |init| && init[k] == e.filterName;
        assert sortedNames[k] == e.filterName;
      }
      if r != ri {
        forall a, b | 0 <= a < b < |r| ensures StrLt(r[a].filterName, r[b].filterName) {
          if b == |ri| { assert r[a] == ri[a] && r[a] in ri; }
          else { assert r[a] == ri[a] && r[b] == ri[b]; }
        }
      }
    }
  }

  /**
   The Generate menu built from the reference filters: exactly the
   generation-category names without "Import" and with no inputs, ascending.
   */
  method BuildGenerateMenu(refs: map<string, FilterInfo>) returns (menu: seq<string>)
    ensures StrictlySorted(menu)
    ensures forall n :: n in menu <==>
      IsGeneration(refs, n) && !Contains(n, ImportWord) && refs[n].inputCount == 0
  {
    var names := GenerationNames(refs);
    menu := GenerateMenu(names, refs);
    GenerateMenuSorted(names, refs);
  }

  /** The Import menu built from the reference filters. */
  method BuildImportMenu(refs: map<string, FilterInfo>) returns (menu: seq<MenuEntry>)
    ensures forall a, b :: 0 <= a < b < |menu| ==> StrLt(menu[a].filterName, menu[b].filterName)
    ensures forall e :: e in menu ==>
      IsGeneration(refs, e.filterName) && Contains(e.filterName, ImportWord) && e.caption == ShortName(e.filterName)
    ensures forall n :: IsGeneration(refs, n) && Contains(n, ImportWord) ==> MenuEntry(ShortName(n), n) in menu
  {
    var names := GenerationNames(refs);
    menu := ImportMenu(names);
    ImportMenuSorted(names);
  }

  /** No filter is offered by both menus. */
  lemma MenusDisjoint(sortedNames: seq<string>, refs: map<string, FilterInfo>, e: MenuEntry)
    requires forall n :: n in sortedNames ==> n in refs
    requires e in ImportMenu(sortedNames)
    ensures e.filterName !in GenerateMenu(sortedNames, refs)
  {
  }
}
