/**
 The ids of the educational resources catalogue as plain lists of strings, and the facts
 about distinct and disjoint id lists that the catalogue's uniqueness proof is built from.
 The id columns below are a second copy of the ids written in the catalogue's items; they
 exist only so that the uniqueness proof works on short string lists, and each one is tied
 back to the items it lists by the matching `*IdColumn` lemma in `ResourceCatalogue`, so a
 column that drifted from the items would fail to verify.
 */
module CatalogueIds {
  predicate Distinct(xs: seq<string>) {
    forall i, j :: 0 <= i < j < |xs| ==> xs[i] != xs[j]
  }

  predicate Disjoint(xs: seq<string>, ys: seq<string>) {
    forall i, j :: 0 <= i < |xs| && 0 <= j < |ys| ==> xs[i] != ys[j]
  }

  lemma DistinctAppend(xs: seq<string>, ys: seq<string>)
    requires Distinct(xs) && Distinct(ys) && Disjoint(xs, ys)
    ensures Distinct(xs + ys)
  {
    forall i, j | 0 <= i < j < |xs + ys| ensures (xs + ys)[i] != (xs + ys)[j] {
      if j < |xs| {
        assert (xs + ys)[i] == xs[i] && (xs + ys)[j] == xs[j];
      } else if i < |xs| {
        assert (xs + ys)[i] == xs[i] && (xs + ys)[j] == ys[j - |xs|];
      } else {
        assert (xs + ys)[i] == ys[i - |xs|] && (xs + ys)[j] == ys[j - |xs|];
      }
    }
  }

  lemma DisjointAppend(xs: seq<string>, ys: seq<string>, zs: seq<string>)
    requires Disjoint(xs, zs) && Disjoint(ys, zs)
    ensures Disjoint(xs + ys, zs)
  {
    forall i, j | 0 <= i < |xs + ys| && 0 <= j < |zs| ensures (xs + ys)[i] != zs[j] {
      if i < |xs| {
        assert (xs + ys)[i] == xs[i];
      } else {
        assert (xs + ys)[i] == ys[i - |xs|];
      }
    }
  }

  lemma DisjointSwap(xs: seq<string>, ys: seq<string>)
    requires Disjoint(xs, ys) || Disjoint(ys, xs)
    ensures Disjoint(xs, ys) && Disjoint(ys, xs)
  {
  }

  lemma DisjointAppendRight(xs: seq<string>, ys: seq<string>, zs: seq<string>)
    requires Disjoint(xs, ys) && Disjoint(xs, zs)
    ensures Disjoint(xs, ys + zs)
  {
    DisjointSwap(xs, ys);
    DisjointSwap(xs, zs);
    DisjointAppend(ys, zs, xs);
    DisjointSwap(ys + zs, xs);
  }

  /** Two halves each apart from two halves: the joined lists are apart. */
  lemma DisjointHalves(a1: seq<string>, a2: seq<string>, b1: seq<string>, b2: seq<string>)
    requires Disjoint(a1, b1) && Disjoint(a1, b2) && Disjoint(a2, b1) && Disjoint(a2, b2)
    ensures Disjoint(a1 + a2, b1 + b2)
  {
    DisjointAppendRight(a1, b1, b2);
    DisjointAppendRight(a2, b1, b2);
    DisjointAppend(a1, a2, b1 + b2);
  }

  /** The id column of each category, cut at a section header into two halves. The
      catalogue proves that these are its items' ids. */
  const FitnessIdsA: seq<string> := [
    "rutinas-header",
    "calistenia-1",
    "calistenia-2",
    "calistenia-3",
    "calistenia-4",
    "calistenia-5"
  ]

  const FitnessIdsB: seq<string> := [
    "beneficios-header",
    "deporte-1",
    "deporte-2",
    "deporte-3",
    "deporte-4",
    "deporte-5",
    "deporte-6"
  ]

  const MindIdsA: seq<string> := [
    "libros-header",
    "libro-1",
    "libro-2",
    "libro-3",
    "libro-4",
    "libro-5",
    "libro-6",
    "libro-7",
    "libro-8",
    "libro-9",
    "libro-10"
  ]

  const MindIdsB: seq<string> := [
    "videos-header",
    "video-1",
    "video-3",
    "video-4",
    "apps-header",
    "meditacion-1",
    "meditacion-2",
    "meditacion-3",
    "meditacion-4",
    "meditacion-5",
    "meditacion-6"
  ]

  const NutritionIdsA: seq<string> := [
    "recetas-header",
    "receta-1",
    "receta-2",
    "receta-3",
    "receta-4",
    "receta-5",
    "receta-6",
    "receta-7",
    "snack-1",
    "snack-2",
    "snack-3"
  ]

  const NutritionIdsB: seq<string> := [
    "beneficios-nutricion-header",
    "beneficio-1",
    "beneficio-2",
    "beneficio-3",
    "beneficio-4",
    "beneficio-5"
  ]

  const DigitalHealthIdsA: seq<string> := [
    "hashtags-header",
    "hashtag-1",
    "hashtag-2",
    "hashtag-3",
    "algoritmo-header",
    "algoritmo-1",
    "algoritmo-2",
    "algoritmo-3"
  ]

  const DigitalHealthIdsB: seq<string> := [
    "modo-byn-header",
    "byn-ios",
    "byn-android",
    "beneficios-digital-header",
    "ventaja-1",
    "ventaja-2",
    "ventaja-3",
    "ventaja-4"
  ]

  lemma FitnessIdsADistinct() ensures Distinct(FitnessIdsA) {}
  lemma FitnessIdsBDistinct() ensures Distinct(FitnessIdsB) {}
  lemma FitnessHalvesApart() ensures Disjoint(FitnessIdsA, FitnessIdsB) {}
  lemma MindIdsADistinct() ensures Distinct(MindIdsA) {}
  lemma MindIdsBDistinct() ensures Distinct(MindIdsB) {}
  lemma MindHalvesApart() ensures Disjoint(MindIdsA, MindIdsB) {}
  lemma NutritionIdsADistinct() ensures Distinct(NutritionIdsA) {}
  lemma NutritionIdsBDistinct() ensures Distinct(NutritionIdsB) {}
  lemma NutritionHalvesApart() ensures Disjoint(NutritionIdsA, NutritionIdsB) {}
  lemma DigitalHealthIdsADistinct() ensures Distinct(DigitalHealthIdsA) {}
  lemma DigitalHealthIdsBDistinct() ensures Distinct(DigitalHealthIdsB) {}
  lemma DigitalHealthHalvesApart() ensures Disjoint(DigitalHealthIdsA, DigitalHealthIdsB) {}
  lemma FitnessAMindAApart() ensures Disjoint(FitnessIdsA, MindIdsA) {}
  lemma FitnessAMindBApart() ensures Disjoint(FitnessIdsA, MindIdsB) {}
  lemma FitnessBMindAApart() ensures Disjoint(FitnessIdsB, MindIdsA) {}
  lemma FitnessBMindBApart() ensures Disjoint(FitnessIdsB, MindIdsB) {}
  lemma FitnessANutritionAApart() ensures Disjoint(FitnessIdsA, NutritionIdsA) {}
  lemma FitnessANutritionBApart() ensures Disjoint(FitnessIdsA, NutritionIdsB) {}
  lemma FitnessBNutritionAApart() ensures Disjoint(FitnessIdsB, NutritionIdsA) {}
  lemma FitnessBNutritionBApart() ensures Disjoint(FitnessIdsB, NutritionIdsB) {}
  lemma FitnessADigitalHealthAApart() ensures Disjoint(FitnessIdsA, DigitalHealthIdsA) {}
  lemma FitnessADigitalHealthBApart() ensures Disjoint(FitnessIdsA, DigitalHealthIdsB) {}
  lemma FitnessBDigitalHealthAApart() ensures Disjoint(FitnessIdsB, DigitalHealthIdsA) {}
  lemma FitnessBDigitalHealthBApart() ensures Disjoint(FitnessIdsB, DigitalHealthIdsB) {}
  lemma MindANutritionAApart() ensures Disjoint(MindIdsA, NutritionIdsA) {}
  lemma MindANutritionBApart() ensures Disjoint(MindIdsA, NutritionIdsB) {}
  lemma MindBNutritionAApart() ensures Disjoint(MindIdsB, NutritionIdsA) {}
  lemma MindBNutritionBApart() ensures Disjoint(MindIdsB, NutritionIdsB) {}
  lemma MindADigitalHealthAApart() ensures Disjoint(MindIdsA, DigitalHealthIdsA) {}
  lemma MindADigitalHealthBApart() ensures Disjoint(MindIdsA, DigitalHealthIdsB) {}
  lemma MindBDigitalHealthAApart() ensures Disjoint(MindIdsB, DigitalHealthIdsA) {}
  lemma MindBDigitalHealthBApart() ensures Disjoint(MindIdsB, DigitalHealthIdsB) {}
  lemma NutritionADigitalHealthAApart() ensures Disjoint(NutritionIdsA, DigitalHealthIdsA) {}
  lemma NutritionADigitalHealthBApart() ensures Disjoint(NutritionIdsA, DigitalHealthIdsB) {}
  lemma NutritionBDigitalHealthAApart() ensures Disjoint(NutritionIdsB, DigitalHealthIdsA) {}
  lemma NutritionBDigitalHealthBApart() ensures Disjoint(NutritionIdsB, DigitalHealthIdsB) {}
}
