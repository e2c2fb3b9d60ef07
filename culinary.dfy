/** The culinary page: food experiences, the experience form's rules, the
    group-by-cuisine view and the page's view controller. */
module Culinary {
  import opened Wrappers
  import Api
  import Views
  import Grouping

  /** A food experience as the page reads it. */
  datatype CulinaryItem = CulinaryItem(id: int, name: string, description: string,
                                       location: string, priceRange: string,
                                       cuisineType: string, rating: real, notes: string)

  /** The experience form; a number input left empty is `None`. */
  datatype CulinaryForm = CulinaryForm(name: string, description: string, location: string,
                                       priceRange: string, cuisineType: string,
                                       rating: Option<real>, notes: string)

  /** The declared rules: name, description, location, cuisine type and
      price range required (a select left on its placeholder fails), rating
      required and between 1 and 5; notes are optional. */
  predicate ValidCulinaryForm(f: CulinaryForm) {
    && f.name != ""
    && f.description != ""
    && f.location != ""
    && f.cuisineType != ""
    && f.priceRange != ""
    && f.rating.Some? && 1.0 <= f.rating.value <= 5.0
  }

  function CulinaryId(item: CulinaryItem): int {
    item.id
  }

  function CuisineOf(item: CulinaryItem): string {
    item.cuisineType
  }

  /** The page's derived view: the loaded experiences grouped by cuisine
      type, groups in order of first appearance, each group non-empty, of
      one cuisine, and every experience in exactly one group. */
  method GroupedCulinary(response: Option<seq<CulinaryItem>>)
    returns (groups: seq<(string, seq<CulinaryItem>)>)
    ensures groups == Grouping.Grouped(Views.Loaded(response), CuisineOf)
    ensures response.None? ==> groups == []
    ensures forall j :: 0 <= j < |groups| ==> |groups[j].1| > 0
    ensures forall j, m :: 0 <= j < |groups| && 0 <= m < |groups[j].1| ==>
              groups[j].1[m].cuisineType == groups[j].0
    ensures Grouping.SizeSum(groups) == |Views.Loaded(response)|
  {
    var items := Views.Loaded(response);
    groups := Grouping.GroupBy(items, CuisineOf);
    forall j | 0 <= j < |groups|
      ensures |groups[j].1| > 0
      ensures forall m :: 0 <= m < |groups[j].1| ==> groups[j].1[m].cuisineType == groups[j].0
    {
      Grouping.GroupsNonEmptyAndKeyed(items, CuisineOf, j);
    }
    Grouping.SizesSumToCount(items, CuisineOf);
  }

  /** The page's controller: key `'culinary'`, mutations through
      `culinaryAPI`, submissions gated by the experience form's rules. */
  method NewCulinaryView(cache: Views.QueryCache)
    returns (v: Views.ResourceView<CulinaryItem, CulinaryForm>)
    ensures fresh(v)
    ensures v.key == "culinary" && v.api == Api.CulinaryApi && v.cache == cache
    ensures v.idOf == CulinaryId && v.accepts == ValidCulinaryForm
    ensures !v.isCreating && v.editingItem == None
  {
    v := new Views.ResourceView("culinary", Api.CulinaryApi, cache, CulinaryId, ValidCulinaryForm);
  }
}
