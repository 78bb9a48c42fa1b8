/**
 * The catalogue of ready-made gym programmes, the category filter over it,
 * the difficulty badge colour and the three-exercise preview on each card.
 */
module WorkoutTemplates {
  import opened JsBase

  datatype TemplateExercise = TemplateExercise(name: string, sets: nat, reps: string, rest: nat, muscleGroup: string)

  datatype Programme = Programme(
    id: string, name: string, category: string, difficulty: string, duration: nat,
    description: string, goals: seq<string>, exercises: seq<TemplateExercise>)

  /** The six programmes the templates tab offers. */
  const Catalogue: seq<Programme> := [
    Programme("push-pull-legs", "Push Pull Legs", "strength", "intermediate", 60,
      "Classic 3-day split focusing on major muscle groups",
      ["Build Strength", "Muscle Growth", "Balanced Development"],
      [ TemplateExercise("Bench Press", 4, "8-10", 90, "Chest"),
        TemplateExercise("Overhead Press", 3, "8-12", 60, "Shoulders"),
        TemplateExercise("Tricep Dips", 3, "10-15", 60, "Triceps"),
        TemplateExercise("Lateral Raises", 3, "12-15", 45, "Shoulders") ]),
    Programme("upper-lower", "Upper/Lower Split", "hypertrophy", "intermediate", 75,
      "4-day split for balanced muscle development",
      ["Hypertrophy", "Strength", "Aesthetics"],
      [ TemplateExercise("Squats", 4, "8-12", 120, "Legs"),
        TemplateExercise("Romanian Deadlifts", 3, "10-12", 90, "Hamstrings"),
        TemplateExercise("Leg Press", 3, "12-15", 90, "Quads"),
        TemplateExercise("Calf Raises", 4, "15-20", 45, "Calves") ]),
    Programme("full-body-beginner", "Full Body Beginner", "beginner", "beginner", 45,
      "Perfect for beginners starting their fitness journey",
      ["Learn Basics", "Build Foundation", "Consistency"],
      [ TemplateExercise("Goblet Squats", 3, "12-15", 60, "Legs"),
        TemplateExercise("Push-ups", 3, "8-12", 60, "Chest"),
        TemplateExercise("Dumbbell Rows", 3, "10-12", 60, "Back"),
        TemplateExercise("Planks", 3, "30-60 sec", 45, "Core") ]),
    Programme("powerbuilding", "Powerbuilding", "strength", "advanced", 90,
      "Combine powerlifting and bodybuilding for maximum results",
      ["Max Strength", "Muscle Mass", "Athletic Performance"],
      [ TemplateExercise("Deadlifts", 5, "3-5", 180, "Full Body"),
        TemplateExercise("Bench Press", 5, "3-5", 150, "Chest"),
        TemplateExercise("Weighted Pull-ups", 4, "6-8", 120, "Back"),
        TemplateExercise("Overhead Press", 4, "5-8", 120, "Shoulders") ]),
    Programme("hiit-strength", "HIIT Strength", "endurance", "intermediate", 30,
      "High-intensity interval training with strength exercises",
      ["Fat Loss", "Cardio", "Muscle Endurance"],
      [ TemplateExercise("Kettlebell Swings", 5, "20", 30, "Full Body"),
        TemplateExercise("Burpees", 4, "10-15", 45, "Full Body"),
        TemplateExercise("Mountain Climbers", 4, "30 sec", 30, "Core"),
        TemplateExercise("Jump Squats", 4, "15-20", 45, "Legs") ]),
    Programme("bodybuilding-split", "Bodybuilding Split", "hypertrophy", "advanced", 80,
      "Advanced split for maximum muscle hypertrophy",
      ["Muscle Growth", "Aesthetics", "Definition"],
      [ TemplateExercise("Incline Dumbbell Press", 4, "10-12", 90, "Chest"),
        TemplateExercise("Cable Crossovers", 3, "15-20", 60, "Chest"),
        TemplateExercise("Dumbbell Flyes", 3, "12-15", 60, "Chest"),
        TemplateExercise("Pec Deck Machine", 3, "12-15", 45, "Chest") ])
  ]

  /** The category buttons, 'all' first. */
  const CategoryIds: seq<string> := ["all", "strength", "hypertrophy", "endurance", "beginner"]

  predicate InCategory(category: string, p: Programme)
  {
    p.category == category
  }

  /** `filteredTemplates` for the selected category button. */
  function FilteredTemplates(templates: seq<Programme>, selected: string): seq<Programme>
  {
    if selected == "all" then templates else Filter(templates, (p: Programme) => InCategory(selected, p))
  }

  /** 'all' shows every programme in order; any other selection shows exactly the
      programmes of that category, in catalogue order. */
  lemma {:induction false} FilteredTemplatesMeaning(templates: seq<Programme>, selected: string)
    ensures selected == "all" ==> FilteredTemplates(templates, selected) == templates
    ensures selected != "all" ==>
      forall p :: p in FilteredTemplates(templates, selected) <==> p in templates && p.category == selected
    ensures selected != "all" && templates != [] ==>
      FilteredTemplates(templates, selected) ==
        (if templates[0].category == selected then [templates[0]] else [])
        + FilteredTemplates(templates[1..], selected)
  {
    if selected != "all" && templates != [] {
      assert templates == [templates[0]] + templates[1..];
      FilterAppend([templates[0]], templates[1..], (p: Programme) => InCategory(selected, p));
    }
  }

  /** Every programme of the catalogue belongs to one of the category buttons. */
  lemma CatalogueCategories()
    ensures forall p :: p in Catalogue ==> p.category in CategoryIds[1..]
  {
    forall p | p in Catalogue ensures p.category in CategoryIds[1..] {
      var i :| 0 <= i < |Catalogue| && Catalogue[i] == p;
      assert Catalogue[i].category in CategoryIds[1..];
    }
  }

  lemma {:induction false} NoneOfCategory(templates: seq<Programme>, selected: string)
    requires selected != "all"
    requires forall p :: p in templates ==> p.category != selected
    ensures FilteredTemplates(templates, selected) == []
  {
    if templates != [] {
      assert templates[0] in templates;
      assert forall p :: p in templates[1..] ==> p in templates;
      FilteredTemplatesMeaning(templates, selected);
      NoneOfCategory(templates[1..], selected);
    }
  }

  /** Every category button finds at least one programme, so the empty-state
      card never shows for a selection the buttons can make. */
  lemma OfferedCategoriesNonEmpty(selected: string)
    requires selected in CategoryIds
    ensures FilteredTemplates(Catalogue, selected) != []
  {
    if selected != "all" {
      var k := if selected == "strength" then 0
        else if selected == "hypertrophy" then 1
        else if selected == "beginner" then 2
        else 4;
      assert Catalogue[k].category == selected;
      assert Catalogue[k] in Catalogue;
      FilteredTemplatesMeaning(Catalogue, selected);
      assert Catalogue[k] in FilteredTemplates(Catalogue, selected);
    }
  }

  /** A category no button offers, such as 'custom', finds no programme and
      would show the empty-state card; the buttons never select one
      (`OfferedCategoriesNonEmpty`), so the card is unreachable from them. */
  lemma UnknownCategoryIsEmpty(selected: string)
    requires selected !in CategoryIds
    ensures FilteredTemplates(Catalogue, selected) == []
  {
    CatalogueCategories();
    assert selected !in CategoryIds[1..] by {
      assert forall x :: x in CategoryIds[1..] ==> x in CategoryIds;
    }
    NoneOfCategory(Catalogue, selected);
  }

  /** `getDifficultyColor`, grey for anything else. */
  function DifficultyColor(difficulty: string): (c: string)
    ensures c == "bg-gray-100 text-gray-800" <==>
      difficulty != "beginner" && difficulty != "intermediate" && difficulty != "advanced"
  {
    match difficulty
    case "beginner" => "bg-green-100 text-green-800"
    case "intermediate" => "bg-yellow-100 text-yellow-800"
    case "advanced" => "bg-red-100 text-red-800"
    case _ => "bg-gray-100 text-gray-800"
  }

  /** The card lists `exercises.slice(0, 3)`. */
  function Preview(exercises: seq<TemplateExercise>): (r: seq<TemplateExercise>)
    ensures |r| == if |exercises| < 3 then |exercises| else 3
    ensures r == exercises[..|r|]
  {
    if |exercises| <= 3 then exercises else exercises[..3]
  }

  /** The "+n more exercises" line, shown only past three exercises. */
  function MoreCount(exercises: seq<TemplateExercise>): (r: Option<nat>)
    ensures r.Some? <==> |exercises| > 3
  {
    if |exercises| > 3 then Some(|exercises| - 3) else None
  }

  /** The preview and the "more" line together account for every exercise. */
  lemma PreviewAccountsForAll(exercises: seq<TemplateExercise>)
    ensures |Preview(exercises)| + GetOr(MoreCount(exercises), 0) == |exercises|
    ensures MoreCount(exercises).Some? ==> MoreCount(exercises).value >= 1
  {
  }
}
