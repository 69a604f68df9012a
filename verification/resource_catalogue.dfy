/**
 The static catalogue of the educational resources page: four categories,
 each a list of items grouped under header items. Titles, descriptions and
 video links are display text and are not part of the model.
 */
module ResourceCatalogue {
  import opened CatalogueIds

  /** `type`: a reference item is only read, a one-shot item can be checked off. */
  datatype Kind = Reference | OneShot

  /** An item: its id, its kind and whether it is a section header. */
  datatype Item = Item(id: string, kind: Kind, header: bool)

  datatype Category = Category(id: string, title: string, items: seq<Item>)

  const FitnessItems: seq<Item> := [
    Item("rutinas-header", Reference, true),
    Item("calistenia-1", Reference, false),
    Item("calistenia-2", Reference, false),
    Item("calistenia-3", Reference, false),
    Item("calistenia-4", Reference, false),
    Item("calistenia-5", Reference, false),
    Item("beneficios-header", Reference, true),
    Item("deporte-1", Reference, false),
    Item("deporte-2", Reference, false),
    Item("deporte-3", Reference, false),
    Item("deporte-4", Reference, false),
    Item("deporte-5", Reference, false),
    Item("deporte-6", Reference, false)
  ]

  const MindItems: seq<Item> := [
    Item("libros-header", Reference, true),
    Item("libro-1", OneShot, false),
    Item("libro-2", OneShot, false),
    Item("libro-3", OneShot, false),
    Item("libro-4", OneShot, false),
    Item("libro-5", OneShot, false),
    Item("libro-6", OneShot, false),
    Item("libro-7", OneShot, false),
    Item("libro-8", OneShot, false),
    Item("libro-9", OneShot, false),
    Item("libro-10", OneShot, false),
    Item("videos-header", Reference, true),
    Item("video-1", OneShot, false),
    Item("video-3", OneShot, false),
    Item("video-4", OneShot, false),
    Item("apps-header", Reference, true),
    Item("meditacion-1", Reference, false),
    Item("meditacion-2", Reference, false),
    Item("meditacion-3", Reference, false),
    Item("meditacion-4", Reference, false),
    Item("meditacion-5", Reference, false),
    Item("meditacion-6", Reference, false)
  ]

  const NutritionItems: seq<Item> := [
    Item("recetas-header", Reference, true),
    Item("receta-1", Reference, false),
    Item("receta-2", Reference, false),
    Item("receta-3", Reference, false),
    Item("receta-4", Reference, false),
    Item("receta-5", Reference, false),
    Item("receta-6", Reference, false),
    Item("receta-7", Reference, false),
    Item("snack-1", Reference, false),
    Item("snack-2", Reference, false),
    Item("snack-3", Reference, false),
    Item("beneficios-nutricion-header", Reference, true),
    Item("beneficio-1", Reference, false),
    Item("beneficio-2", Reference, false),
    Item("beneficio-3", Reference, false),
    Item("beneficio-4", Reference, false),
    Item("beneficio-5", Reference, false)
  ]

  const DigitalHealthItems: seq<Item> := [
    Item("hashtags-header", Reference, true),
    Item("hashtag-1", OneShot, false),
    Item("hashtag-2", OneShot, false),
    Item("hashtag-3", OneShot, false),
    Item("algoritmo-header", Reference, true),
    Item("algoritmo-1", OneShot, false),
    Item("algoritmo-2", OneShot, false),
    Item("algoritmo-3", OneShot, false),
    Item("modo-byn-header", Reference, true),
    Item("byn-ios", OneShot, false),
    Item("byn-android", OneShot, false),
    Item("beneficios-digital-header", Reference, true),
    Item("ventaja-1", Reference, false),
    Item("ventaja-2", Reference, false),
    Item("ventaja-3", Reference, false),
    Item("ventaja-4", Reference, false)
  ]

  const Categories: seq<Category> := [
    Category("fitness", "Fitness", FitnessItems),
    Category("mente", "Mind", MindItems),
    Category("nutricion", "Nutrition", NutritionItems),
    Category("salud-digital", "Digital Health", DigitalHealthItems)
  ]

  /** The ids of a list of items, in order. */
  function Ids(items: seq<Item>): (r: seq<string>)
    ensures |r| == |items|
    ensures forall i :: 0 <= i < |items| ==> r[i] == items[i].id
  {
    seq(|items|, i requires 0 <= i < |items| => items[i].id)
  }

  /** Every item of the page, category by category. */
  function AllItems(categories: seq<Category>): (r: seq<Item>)
    ensures categories != [] ==> r == categories[0].items + AllItems(categories[1..])
  {
    if categories == [] then [] else categories[0].items + AllItems(categories[1..])
  }

  lemma IdsAppend(a: seq<Item>, b: seq<Item>)
    ensures Ids(a + b) == Ids(a) + Ids(b)
  {
  }

  /** No two items of the page share an id, across all categories: the checklist, keyed
      by id, addresses exactly one item. */
  lemma CatalogueIdsDistinct()
    ensures Distinct(Ids(AllItems(Categories)))
  {
    var f, m, n, d := Ids(FitnessItems), Ids(MindItems), Ids(NutritionItems), Ids(DigitalHealthItems);
    CatalogueItems();
    IdsAppend(NutritionItems, DigitalHealthItems);
    IdsAppend(MindItems, NutritionItems + DigitalHealthItems);
    IdsAppend(FitnessItems, MindItems + (NutritionItems + DigitalHealthItems));
    FitnessDistinct();
    MindDistinct();
    NutritionDistinct();
    DigitalHealthDistinct();
    NutritionDigitalHealthDisjoint();
    DistinctAppend(n, d);
    MindNutritionDisjoint();
    MindDigitalHealthDisjoint();
    DisjointAppend(n, d, m);
    DisjointSwap(m, n + d);
    DistinctAppend(m, n + d);
    FitnessMindDisjoint();
    FitnessNutritionDisjoint();
    FitnessDigitalHealthDisjoint();
    DisjointSwap(f, m);
    DisjointSwap(f, n);
    DisjointSwap(f, d);
    DisjointAppend(n, d, f);
    DisjointAppend(m, n + d, f);
    DisjointSwap(m + (n + d), f);
    DistinctAppend(f, m + (n + d));
  }

  /** Section headers are reference items, so a header never gets a checkbox. */
  predicate HeadersAreReferences(items: seq<Item>) {
    forall i :: 0 <= i < |items| && items[i].header ==> items[i].kind == Reference
  }

  lemma HeadersAppend(a: seq<Item>, b: seq<Item>)
    requires HeadersAreReferences(a) && HeadersAreReferences(b)
    ensures HeadersAreReferences(a + b)
  {
    forall i | 0 <= i < |a + b| && (a + b)[i].header ensures (a + b)[i].kind == Reference {
      if i < |a| {
        assert (a + b)[i] == a[i];
      } else {
        assert (a + b)[i] == b[i - |a|];
      }
    }
  }

  /** Every header on the page is a reference item, and every category opens with one. */
  lemma CatalogueHeaders()
    ensures HeadersAreReferences(AllItems(Categories))
    ensures forall c :: 0 <= c < |Categories| ==> Categories[c].items != [] && Categories[c].items[0].header
  {
    CatalogueItems();
    FitnessHeaders();
    MindHeaders();
    NutritionHeaders();
    DigitalHealthHeaders();
    HeadersAppend(NutritionItems, DigitalHealthItems);
    HeadersAppend(MindItems, NutritionItems + DigitalHealthItems);
    HeadersAppend(FitnessItems, MindItems + (NutritionItems + DigitalHealthItems));
  }

  /** The page's items, category after category. */
  lemma CatalogueItems()
    ensures AllItems(Categories) == FitnessItems + (MindItems + (NutritionItems + DigitalHealthItems))
  {
    assert AllItems(Categories) == FitnessItems + (MindItems + (NutritionItems + (DigitalHealthItems + []))) by {
      assert Categories[1..][1..][1..][1..] == [];
    }
    assert DigitalHealthItems + [] == DigitalHealthItems;
  }

  lemma FitnessHeaders() ensures HeadersAreReferences(FitnessItems) {}
  lemma MindHeaders() ensures HeadersAreReferences(MindItems) {}
  lemma NutritionHeaders() ensures HeadersAreReferences(NutritionItems) {}
  lemma DigitalHealthHeaders() ensures HeadersAreReferences(DigitalHealthItems) {}

  lemma FitnessIdColumn() ensures Ids(FitnessItems) == FitnessIdsA + FitnessIdsB {}
  lemma MindIdColumn() ensures Ids(MindItems) == MindIdsA + MindIdsB {}
  lemma NutritionIdColumn() ensures Ids(NutritionItems) == NutritionIdsA + NutritionIdsB {}
  lemma DigitalHealthIdColumn() ensures Ids(DigitalHealthItems) == DigitalHealthIdsA + DigitalHealthIdsB {}

  lemma FitnessDistinct() ensures Distinct(Ids(FitnessItems))
  {
    FitnessIdColumn();
    FitnessIdsADistinct();
    FitnessIdsBDistinct();
    FitnessHalvesApart();
    DistinctAppend(FitnessIdsA, FitnessIdsB);
  }

  lemma MindDistinct() ensures Distinct(Ids(MindItems))
  {
    MindIdColumn();
    MindIdsADistinct();
    MindIdsBDistinct();
    MindHalvesApart();
    DistinctAppend(MindIdsA, MindIdsB);
  }

  lemma NutritionDistinct() ensures Distinct(Ids(NutritionItems))
  {
    NutritionIdColumn();
    NutritionIdsADistinct();
    NutritionIdsBDistinct();
    NutritionHalvesApart();
    DistinctAppend(NutritionIdsA, NutritionIdsB);
  }

  lemma DigitalHealthDistinct() ensures Distinct(Ids(DigitalHealthItems))
  {
    DigitalHealthIdColumn();
    DigitalHealthIdsADistinct();
    DigitalHealthIdsBDistinct();
    DigitalHealthHalvesApart();
    DistinctAppend(DigitalHealthIdsA, DigitalHealthIdsB);
  }

  lemma FitnessMindDisjoint() ensures Disjoint(Ids(FitnessItems), Ids(MindItems))
  {
    FitnessIdColumn();
    MindIdColumn();
    FitnessAMindAApart();
    FitnessAMindBApart();
    FitnessBMindAApart();
    FitnessBMindBApart();
    DisjointHalves(FitnessIdsA, FitnessIdsB, MindIdsA, MindIdsB);
  }

  lemma FitnessNutritionDisjoint() ensures Disjoint(Ids(FitnessItems), Ids(NutritionItems))
  {
    FitnessIdColumn();
    NutritionIdColumn();
    FitnessANutritionAApart();
    FitnessANutritionBApart();
    FitnessBNutritionAApart();
    FitnessBNutritionBApart();
    DisjointHalves(FitnessIdsA, FitnessIdsB, NutritionIdsA, NutritionIdsB);
  }

  lemma FitnessDigitalHealthDisjoint() ensures Disjoint(Ids(FitnessItems), Ids(DigitalHealthItems))
  {
    FitnessIdColumn();
    DigitalHealthIdColumn();
    FitnessADigitalHealthAApart();
    FitnessADigitalHealthBApart();
    FitnessBDigitalHealthAApart();
    FitnessBDigitalHealthBApart();
    DisjointHalves(FitnessIdsA, FitnessIdsB, DigitalHealthIdsA, DigitalHealthIdsB);
  }

  lemma MindNutritionDisjoint() ensures Disjoint(Ids(MindItems), Ids(NutritionItems))
  {
    MindIdColumn();
    NutritionIdColumn();
    MindANutritionAApart();
    MindANutritionBApart();
    MindBNutritionAApart();
    MindBNutritionBApart();
    DisjointHalves(MindIdsA, MindIdsB, NutritionIdsA, NutritionIdsB);
  }

  lemma MindDigitalHealthDisjoint() ensures Disjoint(Ids(MindItems), Ids(DigitalHealthItems))
  {
    MindIdColumn();
    DigitalHealthIdColumn();
    MindADigitalHealthAApart();
    MindADigitalHealthBApart();
    MindBDigitalHealthAApart();
    MindBDigitalHealthBApart();
    DisjointHalves(MindIdsA, MindIdsB, DigitalHealthIdsA, DigitalHealthIdsB);
  }

  lemma NutritionDigitalHealthDisjoint() ensures Disjoint(Ids(NutritionItems), Ids(DigitalHealthItems))
  {
    NutritionIdColumn();
    DigitalHealthIdColumn();
    NutritionADigitalHealthAApart();
    NutritionADigitalHealthBApart();
    NutritionBDigitalHealthAApart();
    NutritionBDigitalHealthBApart();
    DisjointHalves(NutritionIdsA, NutritionIdsB, DigitalHealthIdsA, DigitalHealthIdsB);
  }

}
