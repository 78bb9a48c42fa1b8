/**
 * The gym dialog's conversion of a chosen programme into the live tracker's
 * exercise list: one tracked exercise per programme exercise, its sets
 * generated from the set count and the rep text.
 */
module GymDialog {
  import opened JsBase
  import opened GymAnalytics
  import opened WorkoutTracker
  import opened WorkoutTemplates

  /** `text.split('-')[0]`: everything before the first '-'. */
  function BeforeFirstDash(text: string): (r: string)
    ensures |r| <= |text| && r == text[..|r|]
    ensures '-' !in r
    ensures '-' !in text ==> r == text
    ensures |r| == |text| || text[|r|] == '-'
  {
    if text == [] || text[0] == '-' then [] else [text[0]] + BeforeFirstDash(text[1..])
  }

  /** `parseInt(ex.reps.split('-')[0]) || 10`: the leading number of a rep range
      such as '8-10' or '30 sec', 10 when there is none or it is 0. */
  function RepsFromText(text: string): int
  {
    ParseIntOr(BeforeFirstDash(text), 10)
  }

  /** The piece before the first '-' carries no minus sign, so the parsed reps
      are never negative, and with the fallback for 0 never below 1. */
  lemma RepsAtLeastOne(text: string)
    ensures RepsFromText(text) >= 1
  {
    var s := BeforeFirstDash(text);
    if |s| > 0 {
      assert s[0] in s;
    }
  }

  /** The written number comes back, whatever text after it starts with '-' or
      another non-digit: a range reads as its lower bound. */
  lemma RepsFromLowerBound(n: nat, rest: string)
    requires n != 0
    requires rest == [] || !IsDigit(rest[0])
    requires '-' !in rest || (rest != [] && rest[0] == '-')
    ensures RepsFromText(NatToString(n) + rest) == n
  {
    var s := NatToString(n);
    var b := BeforeFirstDash(s + rest);
    assert '-' !in s by {
      forall i | 0 <= i < |s| ensures s[i] != '-' {
        assert IsDigit(s[i]);
      }
    }
    DashFreePrefix(s, rest);
    if rest != [] && rest[0] == '-' {
      assert b == s;
      ParseIntOfNatToString(n, "");
      assert s + "" == s;
    } else {
      assert b == s + rest;
      ParseIntOfNatToString(n, rest);
    }
  }

  lemma {:induction false} DashFreePrefix(s: string, rest: string)
    requires '-' !in s
    ensures BeforeFirstDash(s + rest) == s + BeforeFirstDash(rest)
  {
    if s != [] {
      assert (s + rest)[0] == s[0];
      assert (s + rest)[1..] == s[1..] + rest;
      assert s[0] in s;
      assert forall c :: c in s[1..] ==> c in s;
      DashFreePrefix(s[1..], rest);
    } else {
      assert s + rest == rest;
    }
  }

  /** The rep texts the catalogue uses: a range reads as its lower bound, a
      duration as its number of seconds. */
  lemma RepTextExamples()
    ensures RepsFromText("8-10") == 8
    ensures RepsFromText("30 sec") == 30
    ensures RepsFromText("20") == 20
    ensures RepsFromText("30-60 sec") == 30
  {
    RangeExample();
    SecondsExample();
    PlainExample();
    LongRangeExample();
  }

  lemma RangeExample()
    ensures RepsFromText("8-10") == 8
  {
    var s := NatToString(8);
    assert s == "8";
    RepsFromLowerBound(8, "-10");
    assert s + "-10" == "8-10";
  }

  lemma SecondsExample()
    ensures RepsFromText("30 sec") == 30
  {
    var s := NatToString(30);
    assert s == "30";
    RepsFromLowerBound(30, " sec");
    assert s + " sec" == "30 sec";
  }

  lemma PlainExample()
    ensures RepsFromText("20") == 20
  {
    var s := NatToString(20);
    assert s == "20";
    RepsFromLowerBound(20, "");
    assert s + "" == "20";
  }

  lemma LongRangeExample()
    ensures RepsFromText("30-60 sec") == 30
  {
    var s := NatToString(30);
    assert s == "30";
    RepsFromLowerBound(30, "-60 sec");
    assert s + "-60 sec" == "30-60 sec";
  }

  /** One programme exercise as the tracker holds it: `Array.from({ length: sets })`
      of sets at the parsed reps, 135 weight and not completed, with 90 s rest. */
  function ToTracked(ex: TemplateExercise, index: nat): (t: TrackedExercise)
    ensures t.id == NatToString(index) && t.name == ex.name && t.restTime == 90
    ensures |t.sets| == ex.sets
    ensures forall k :: 0 <= k < |t.sets| ==>
      t.sets[k] == LoggedSet(RepsFromText(ex.reps), 135, false)
  {
    TrackedExercise(NatToString(index), ex.name,
      seq(ex.sets, _ => LoggedSet(RepsFromText(ex.reps), 135, false)), 90)
  }

  /** `handleSelectTemplate`'s `template.exercises.map((ex, index) => ...)`. */
  function ConvertProgramme(p: Programme): (r: seq<TrackedExercise>)
    ensures |r| == |p.exercises|
    ensures forall i :: 0 <= i < |r| ==> r[i] == ToTracked(p.exercises[i], i)
  {
    seq(|p.exercises|, i requires 0 <= i < |p.exercises| => ToTracked(p.exercises[i], i))
  }

  /** The converted list keeps the programme's order and names, gives every
      exercise a distinct id, as many sets as the programme asks for, each of at
      least one rep, and never a completed set. */
  lemma ConvertProgrammeMeaning(p: Programme)
    ensures forall i :: 0 <= i < |p.exercises| ==> ConvertProgramme(p)[i].name == p.exercises[i].name
    ensures forall i, j :: 0 <= i < j < |p.exercises| ==> ConvertProgramme(p)[i].id != ConvertProgramme(p)[j].id
    ensures forall i :: 0 <= i < |p.exercises| ==> |ConvertProgramme(p)[i].sets| == p.exercises[i].sets
    ensures forall i, k :: 0 <= i < |p.exercises| && 0 <= k < |ConvertProgramme(p)[i].sets| ==>
      ConvertProgramme(p)[i].sets[k].reps >= 1 && !ConvertProgramme(p)[i].sets[k].completed
    ensures CompletedSets(ConvertProgramme(p)) == 0
  {
    var r := ConvertProgramme(p);
    forall i, j | 0 <= i < j < |p.exercises| ensures r[i].id != r[j].id {
      if r[i].id == r[j].id {
        NatToStringInjective(i, j);
      }
    }
    forall i | 0 <= i < |p.exercises| ensures RepsFromText(p.exercises[i].reps) >= 1 {
      RepsAtLeastOne(p.exercises[i].reps);
    }
    NoneCompleted(r);
  }

  predicate NoSetCompleted(exs: seq<TrackedExercise>)
  {
    forall i, k :: 0 <= i < |exs| && 0 <= k < |exs[i].sets| ==> !exs[i].sets[k].completed
  }

  lemma {:induction false} NoneCompleted(exs: seq<TrackedExercise>)
    requires NoSetCompleted(exs)
    ensures CompletedSets(exs) == 0
  {
    if exs != [] {
      var n := |exs|;
      assert NoSetCompleted(exs[..n - 1]) by {
        forall i | 0 <= i < n - 1 ensures exs[..n - 1][i] == exs[i] { }
      }
      NoneCompleted(exs[..n - 1]);
      NoneCompletedInSets(exs[n - 1].sets);
    }
  }

  lemma {:induction false} NoneCompletedInSets(sets: seq<LoggedSet>)
    requires forall k :: 0 <= k < |sets| ==> !sets[k].completed
    ensures CountCompleted(sets) == 0
  {
    if sets != [] {
      NoneCompletedInSets(sets[1..]);
    }
  }
}
