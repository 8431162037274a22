/**
 * The sidebar: checkboxes over a catalogue of categories, then one optional
 * custom dataset. Its result, `selected_urls`, is the ordered list of
 * (name, url) pairs every later step iterates over.
 */
module Sidebar {
  import opened Seqs

  /** A catalogue entry, and an entry of the selection, as (name, url). */
  datatype Dataset = Dataset(name: string, url: string)

  /** A category of the catalogue with its entries in display order. */
  datatype Category = Category(title: string, items: seq<Dataset>)

  /** The name given to the custom dataset when its name field is empty. */
  const CustomDefaultName: string := "Custom dataset"

  /** The catalogue's entries, category after category, each category's
      entries in their own order. */
  function AllItems(catalogue: seq<Category>): seq<Dataset> {
    if catalogue == [] then []
    else AllItems(catalogue[..|catalogue| - 1]) + catalogue[|catalogue| - 1].items
  }

  /** The ticked entries in catalogue order. A checkbox's state is keyed by
      its entry's URL, so `ticked` is the set of URLs whose box is ticked. */
  function CheckedItems(catalogue: seq<Category>, ticked: set<string>): seq<Dataset> {
    Filter(AllItems(catalogue), (d: Dataset) => d.url in ticked)
  }

  /** The custom entry (`custom_name or "Custom dataset"`, `custom_url`):
      present exactly when the URL field is non-empty, and never unnamed. */
  function CustomEntry(customName: string, customUrl: string): (r: seq<Dataset>)
    ensures |r| == if customUrl == "" then 0 else 1
    ensures forall d :: d in r ==> d.url == customUrl && d.name != ""
    ensures forall d :: d in r && customName != "" ==> d.name == customName
  {
    if customUrl == "" then []
    else [Dataset(if customName == "" then CustomDefaultName else customName, customUrl)]
  }

  /** The whole selection: every entry is a ticked catalogue entry or the
      custom entry, and there is at most one entry more than the catalogue
      has ticked, so no more than one more than the catalogue has. */
  function SelectionOf(catalogue: seq<Category>, ticked: set<string>, customName: string, customUrl: string)
    : (r: seq<Dataset>)
    ensures |r| <= |CheckedItems(catalogue, ticked)| + 1
    ensures |r| <= |AllItems(catalogue)| + 1
    ensures forall d :: d in r ==>
      (d in AllItems(catalogue) && d.url in ticked) || (d.url == customUrl && customUrl != "")
  {
    CheckedItems(catalogue, ticked) + CustomEntry(customName, customUrl)
  }

  /** The sidebar loop: the nested loop over categories and their entries,
      then the custom entry. */
  method AssembleSelection(catalogue: seq<Category>, ticked: set<string>, customName: string, customUrl: string)
    returns (selected: seq<Dataset>)
    ensures selected == SelectionOf(catalogue, ticked, customName, customUrl)
  {
    ghost var isTicked := (d: Dataset) => d.url in ticked;
    selected := [];
    var i := 0;
    while i < |catalogue|
      invariant 0 <= i <= |catalogue|
      invariant selected == Filter(AllItems(catalogue[..i]), isTicked)
    {
      var items := catalogue[i].items;
      var j := 0;
      assert AllItems(catalogue[..i]) + items[..j] == AllItems(catalogue[..i]);
      while j < |items|
        invariant 0 <= j <= |items|
        invariant selected == Filter(AllItems(catalogue[..i]) + items[..j], isTicked)
      {
        FilterAppend(AllItems(catalogue[..i]) + items[..j], items[j], isTicked);
        assert items[..j + 1] == items[..j] + [items[j]];
        assert AllItems(catalogue[..i]) + items[..j + 1] == (AllItems(catalogue[..i]) + items[..j]) + [items[j]];
        assert isTicked(items[j]) == (items[j].url in ticked);
        if items[j].url in ticked {
          selected := selected + [items[j]];
        }
        j := j + 1;
      }
      assert catalogue[..i + 1][..i] == catalogue[..i];
      assert items[..j] == items;
      i := i + 1;
    }
    assert catalogue[..i] == catalogue;
    if customUrl != "" {
      selected := selected + [Dataset(if customName != "" then customName else CustomDefaultName, customUrl)];
    }
  }

  /** An entry is in the catalogue exactly when some category lists it. */
  lemma {:induction false} AllItemsMembers(catalogue: seq<Category>, d: Dataset)
    ensures d in AllItems(catalogue) <==> exists i :: 0 <= i < |catalogue| && d in catalogue[i].items
  {
    if catalogue != [] {
      var n := |catalogue| - 1;
      AllItemsMembers(catalogue[..n], d);
      if exists i :: 0 <= i < n && d in catalogue[..n][i].items {
        var i :| 0 <= i < n && d in catalogue[..n][i].items;
        assert d in catalogue[i].items;
      }
      if exists i :: 0 <= i < |catalogue| && d in catalogue[i].items {
        var i :| 0 <= i < |catalogue| && d in catalogue[i].items;
        if i < n {
          assert d in catalogue[..n][i].items;
        }
      }
    }
  }

  /** Categories come in catalogue order: the entries of the first `k`
      categories are a prefix of the whole list. */
  lemma {:induction false} AllItemsCategoryOrder(catalogue: seq<Category>, k: nat)
    requires k <= |catalogue|
    ensures AllItems(catalogue[..k]) <= AllItems(catalogue)
    decreases |catalogue| - k
  {
    if k < |catalogue| {
      AllItemsCategoryOrder(catalogue, k + 1);
      assert catalogue[..k + 1][..k] == catalogue[..k];
    } else {
      assert catalogue[..k] == catalogue;
    }
  }

  /** The ticked part of the selection: exactly the catalogue entries whose
      URL is ticked, in catalogue order. */
  lemma CheckedItemsExactly(catalogue: seq<Category>, ticked: set<string>)
    ensures IsSubsequence(CheckedItems(catalogue, ticked), AllItems(catalogue))
    ensures forall d :: d in CheckedItems(catalogue, ticked) <==>
      d.url in ticked && exists i :: 0 <= i < |catalogue| && d in catalogue[i].items
  {
    FilterIsSubsequence(AllItems(catalogue), (d: Dataset) => d.url in ticked);
    forall d {
      AllItemsMembers(catalogue, d);
    }
  }

  /** The ticked entries come first; the custom entry, when the URL field is
      non-empty, is one more entry at the end; nothing else is added. */
  lemma SelectionShape(catalogue: seq<Category>, ticked: set<string>, customName: string, customUrl: string)
    ensures var s := SelectionOf(catalogue, ticked, customName, customUrl);
      var n := |CheckedItems(catalogue, ticked)|;
      && s[..n] == CheckedItems(catalogue, ticked)
      && |s| == n + (if customUrl == "" then 0 else 1)
      && (customUrl != "" ==> s[n].url == customUrl &&
                              s[n].name == (if customName == "" then CustomDefaultName else customName))
  {
  }

  /** Nothing ticked and no custom URL: the selection is empty and the page
      shows its prompt instead of any dataset. */
  lemma EmptySelection(catalogue: seq<Category>, ticked: set<string>, customName: string, customUrl: string)
    ensures SelectionOf(catalogue, ticked, customName, customUrl) == [] <==>
      customUrl == "" && forall d :: d in AllItems(catalogue) ==> d.url !in ticked
  {
    var checked := CheckedItems(catalogue, ticked);
    if checked != [] {
      assert checked[0] in checked;
    }
  }

  /** Order comes from the catalogue, not from the order of ticking: with the
      entry of the second category ticked as well as the first entry of the
      first, the first category's entry is listed first, and an unnamed custom
      dataset comes last under the default name. */
  lemma CatalogueOrderExample()
    ensures var c := [Category("rates", [Dataset("exchange", "u1"), Dataset("discount", "u2")]),
                      Category("reserves", [Dataset("reserves", "u3")])];
      SelectionOf(c, {"u3", "u1"}, "", "u9") ==
        [Dataset("exchange", "u1"), Dataset("reserves", "u3"), Dataset(CustomDefaultName, "u9")]
  {
    var c := [Category("rates", [Dataset("exchange", "u1"), Dataset("discount", "u2")]),
              Category("reserves", [Dataset("reserves", "u3")])];
    assert c[..1][..0] == [] && c[..2] == c;
    assert AllItems(c) == [Dataset("exchange", "u1"), Dataset("discount", "u2"), Dataset("reserves", "u3")];
    assert "u2" != "u3" && "u2" != "u1";
  }
}
