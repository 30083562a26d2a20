/** static/js/stages.js: how the page names the stage a card belongs to,
    how the stepper across the top is marked as stages start and finish,
    and the one-line description of each tool call. Card creation, badges
    and the click handler are DOM wiring and are not part of this model. */
module Stages {
  import opened Text
  import opened Events

  // ---------------------------------------------------------------------
  // classifyStage

  datatype StepKey = PlanStep | SecurityStep | ReviewStep | QaStep | RedStep | GreenStep | ReportStep

  /** The `data-step` value of each stepper entry. */
  function KeyName(k: StepKey): string {
    match k
    case PlanStep => "PLAN"
    case SecurityStep => "SECURITY"
    case ReviewStep => "REVIEW"
    case QaStep => "QA"
    case RedStep => "RED"
    case GreenStep => "GREEN"
    case ReportStep => "REPORT"
  }

  /** The rule table in order of precedence: the text searched for in the
      upper-cased name, and the step it selects. */
  const Rules: seq<(string, StepKey)> := [
    ("PLAN", PlanStep), ("SECURITY", SecurityStep), ("REVIEW", ReviewStep),
    (" QA", QaStep), ("RED", RedStep), ("GREEN", GreenStep), ("REPORT", ReportStep)]

  /** The text a rule looks for. */
  function RuleText(k: StepKey): string {
    if k == QaStep then " QA" else KeyName(k)
  }

  /** `classifyStage`: the upper-cased name is searched for each rule's text
      in turn; the first hit names the step. */
  function ClassifyStage(name: string): (key: Option<StepKey>)
    ensures key.Some? ==> Contains(Upper(name), RuleText(key.value))
  {
    var n := Upper(name);
    if Contains(n, "PLAN") then Some(PlanStep)
    else if Contains(n, "SECURITY") then Some(SecurityStep)
    else if Contains(n, "REVIEW") then Some(ReviewStep)
    else if Contains(n, " QA") then Some(QaStep)
    else if Contains(n, "RED") then Some(RedStep)
    else if Contains(n, "GREEN") then Some(GreenStep)
    else if Contains(n, "REPORT") then Some(ReportStep)
    else None
  }

  /** The first rule of `rules` whose text occurs in `n`. */
  function FirstRule(n: string, rules: seq<(string, StepKey)>): (key: Option<StepKey>)
    ensures key.None? <==> forall i :: 0 <= i < |rules| ==> !Contains(n, rules[i].0)
    ensures key.Some? ==> exists i :: (0 <= i < |rules| && rules[i].1 == key.value
      && Contains(n, rules[i].0) && forall j :: 0 <= j < i ==> !Contains(n, rules[j].0))
  {
    if rules == [] then None
    else if Contains(n, rules[0].0) then Some(rules[0].1)
    else
      var r := FirstRule(n, rules[1..]);
      assert forall i :: 1 <= i < |rules| ==> rules[i] == rules[1..][i - 1];
      r
  }

  /** The chain of tests is the rule table read in order: no later rule can
      take a name from an earlier one. */
  lemma ClassifyIsFirstRule(name: string)
    ensures ClassifyStage(name) == FirstRule(Upper(name), Rules)
  {
    var n := Upper(name);
    var r := Rules;
    assert FirstRule(n, r) == if Contains(n, "PLAN") then Some(PlanStep) else FirstRule(n, r[1..]);
    r := r[1..];
    assert FirstRule(n, r) == if Contains(n, "SECURITY") then Some(SecurityStep) else FirstRule(n, r[1..]);
    r := r[1..];
    assert FirstRule(n, r) == if Contains(n, "REVIEW") then Some(ReviewStep) else FirstRule(n, r[1..]);
    r := r[1..];
    assert FirstRule(n, r) == if Contains(n, " QA") then Some(QaStep) else FirstRule(n, r[1..]);
    r := r[1..];
    assert FirstRule(n, r) == if Contains(n, "RED") then Some(RedStep) else FirstRule(n, r[1..]);
    r := r[1..];
    assert FirstRule(n, r) == if Contains(n, "GREEN") then Some(GreenStep) else FirstRule(n, r[1..]);
    r := r[1..];
    assert FirstRule(n, r) == if Contains(n, "REPORT") then Some(ReportStep) else FirstRule(n, r[1..]);
    assert r[1..] == [];
  }

  lemma ContainsAt(s: string, p: string, i: nat)
    requires OccursAt(s, p, i)
    ensures Contains(s, p)
  {
  }

  /** A text whose first letter does not occur in s does not occur in s. */
  lemma AbsentLetter(s: string, p: string)
    requires p != [] && forall i :: 0 <= i < |s| ==> s[i] != p[0]
    ensures !Contains(s, p)
  {
    forall i | 0 <= i <= |s|
      ensures !OccursAt(s, p, i)
    {
      if i + |p| <= |s| {
        assert s[i..i + |p|][0] == s[i];
      }
    }
  }

  lemma UpperKeepsCapitals(s: string)
    requires forall i :: 0 <= i < |s| ==> !('a' <= s[i] <= 'z')
    ensures Upper(s) == s
  {
  }

  /** A security review is marked on the security step, not the review step. */
  lemma SecurityReviewIsSecurity()
    ensures ClassifyStage("SECURITY REVIEW") == Some(SecurityStep)
  {
    var n := "SECURITY REVIEW";
    UpperKeepsCapitals(n);
    assert Upper("SECURITY REVIEW") == n;
    AbsentLetter(n, "PLAN");
    ContainsAt(n, "SECURITY", 0);
  }

  /** The review's fix stages are marked on the review step. */
  lemma ReviewRedIsReview()
    ensures ClassifyStage("REVIEW_RED") == Some(ReviewStep)
  {
    var n := "REVIEW_RED";
    UpperKeepsCapitals(n);
    assert Upper("REVIEW_RED") == n;
    AbsentLetter(n, "PLAN");
    AbsentLetter(n, "SECURITY");
    ContainsAt(n, "REVIEW", 0);
  }

  // ---------------------------------------------------------------------
  // updateStepper

  /** A stepper entry: its `data-step` value and its class name. */
  class Step {
    const key: string
    var className: string

    constructor (key: string, className: string)
      ensures this.key == key && this.className == className
    {
      this.key := key;
      this.className := className;
    }
  }

  const Done := "step done"
  const Active := "step active"

  /** The position of the first step carrying `wanted`, or |steps|. */
  function FirstMatch(steps: seq<Step>, wanted: string, from: nat): (f: nat)
    requires from <= |steps|
    ensures from <= f <= |steps|
    decreases |steps| - from
  {
    if from == |steps| || steps[from].key == wanted then from
    else FirstMatch(steps, wanted, from + 1)
  }

  /** The position found carries the key, or is the end, and no step
      between the start and it carries the key. */
  lemma {:induction false} FirstMatchIsFirst(steps: seq<Step>, wanted: string, from: nat)
    requires from <= |steps|
    ensures var f := FirstMatch(steps, wanted, from);
            (f < |steps| ==> steps[f].key == wanted)
            && forall j :: from <= j < f ==> steps[j].key != wanted
    decreases |steps| - from
  {
    if from < |steps| && steps[from].key != wanted {
      FirstMatchIsFirst(steps, wanted, from + 1);
    }
  }

  /** The class a step ends with: the matching steps take the new mark,
      the steps before the first match are done, the rest keep theirs. */
  function NewClass(matches: bool, beforeFirst: bool, markDone: bool, current: string): string {
    if matches then (if markDone then Done else Active)
    else if beforeFirst then Done
    else current
  }

  /** `updateStepper`: nothing changes for a stage that does not classify;
      otherwise each step's class is set as NewClass says. */
  method UpdateStepper(steps: seq<Step>, stageName: string, markDone: bool)
    requires Distinct(steps)
    modifies set s | s in steps
    ensures ClassifyStage(stageName).None? ==> forall s :: s in steps ==> s.className == old(s.className)
    ensures ClassifyStage(stageName).Some? ==> forall i :: 0 <= i < |steps| ==>
      steps[i].className == NewClass(steps[i].key == KeyName(ClassifyStage(stageName).value),
        i < FirstMatch(steps, KeyName(ClassifyStage(stageName).value), 0), markDone, old(steps[i].className))
    ensures ClassifyStage(stageName).Some? && (forall s :: s in steps ==> s.key != KeyName(ClassifyStage(stageName).value)) ==>
      forall s :: s in steps ==> s.className == Done
  {
    var key := ClassifyStage(stageName);
    if key.None? {
      return;
    }
    var wanted := KeyName(key.value);
    ghost var first := FirstMatch(steps, wanted, 0);
    FirstMatchIsFirst(steps, wanted, 0);
    var found := false;
    for i := 0 to |steps|
      invariant found <==> first < i
      invariant forall j :: 0 <= j < i ==>
        steps[j].className == NewClass(steps[j].key == wanted, j < first, markDone, old(steps[j].className))
      invariant forall j :: i <= j < |steps| ==> steps[j].className == old(steps[j].className)
    {
      assert forall j :: 0 <= j < |steps| && j != i ==> steps[j] != steps[i];
      found := MarkStep(steps[i], wanted, markDone, found);
    }
  }

  /** The loop body of `updateStepper` on one step: a matching step takes
      the new mark, a step before any match becomes done. */
  method MarkStep(step: Step, wanted: string, markDone: bool, found: bool) returns (found': bool)
    modifies step
    ensures found' <==> found || step.key == wanted
    ensures step.className == NewClass(step.key == wanted, !found, markDone, old(step.className))
  {
    found' := found;
    if step.key == wanted {
      step.className := if markDone then Done else Active;
      found' := true;
    } else if !found {
      step.className := Done;
    }
  }

  // ---------------------------------------------------------------------
  // formatToolDescription

  /** JavaScript truthiness of a JSON value: null, false, 0 and "" are
      false. */
  predicate Truthy(v: Value) {
    match v
    case Str(s) => s != ""
    case Int(i) => i != 0
    case Bool(b) => b
    case Null => false
    case _ => true
  }

  /** String conversion inside a template literal. Arrays are joined with
      "," and their null entries become empty. */
  function JsString(v: Value): string
    decreases v, 1
  {
    match v
    case Str(s) => s
    case Int(i) => IntToString(i)
    case Bool(b) => if b then "true" else "false"
    case Null => "null"
    case Dict(_) => "[object Object]"
    case List(items) => ListString(v, items)
  }

  function ListString(v: Value, items: seq<Value>): string
    requires forall x :: x in items ==> x < v
    decreases v, 0, |items|
  {
    if items == [] then ""
    else
      assert items[0] in items;
      assert forall x :: x in items[1..] ==> x in items;
      var first := if items[0].Null? then "" else JsString(items[0]);
      if |items| == 1 then first else first + "," + ListString(v, items[1..])
  }

  /** A tool's input object: its keys in `Object.keys` order with their values. */
  type Input = seq<(string, Value)>

  function Lookup(input: Input, key: string): (v: Option<Value>)
    ensures v.Some? <==> exists i :: 0 <= i < |input| && input[i].0 == key
  {
    if input == [] then None
    else if input[0].0 == key then Some(input[0].1)
    else Lookup(input[1..], key)
  }

  /** `${input.field || '?'}`. */
  function FieldOr(input: Input, field: string): (s: string)
    ensures s == "?" || (Lookup(input, field).Some? && Truthy(Lookup(input, field).value) && s == JsString(Lookup(input, field).value))
  {
    match Lookup(input, field)
    case Some(v) => if Truthy(v) then JsString(v) else "?"
    case None => "?"
  }

  /** A key that looks like the interesting argument of an unknown tool. */
  predicate Hint(key: string) {
    Contains(key, "path") || Contains(key, "file") || Contains(key, "pattern") || Contains(key, "command")
  }

  /** `keys.find(...) || keys[0]`: the position of the key used. */
  function ChosenKey(input: Input): (i: nat)
    requires input != []
    ensures i < |input|
    ensures Hint(input[i].0) ==> forall j :: 0 <= j < i ==> !Hint(input[j].0)
    ensures !Hint(input[i].0) ==> i == 0 && forall j :: 0 <= j < |input| ==> !Hint(input[j].0)
  {
    match FirstHint(input, 0)
    case Some(i) => i
    case None => 0
  }

  function FirstHint(input: Input, from: nat): (r: Option<nat>)
    requires from <= |input|
    ensures r.Some? ==> (from <= r.value < |input| && Hint(input[r.value].0)
      && forall j :: from <= j < r.value ==> !Hint(input[j].0))
    ensures r.None? ==> forall j :: from <= j < |input| ==> !Hint(input[j].0)
    decreases |input| - from
  {
    if from == |input| then None
    else if Hint(input[from].0) then Some(from)
    else FirstHint(input, from + 1)
  }

  /** `formatToolDescription(name, input)`; None stands for a missing input. */
  function FormatToolDescription(name: string, input: Option<Input>): (d: string)
    ensures input.None? ==> d == name
    ensures input.Some? && name in {"Read", "Write", "Edit"} ==> d == name + ": " + FieldOr(input.value, "file_path")
    ensures input.Some? && name == "Bash" ==> d == "Bash: " + FieldOr(input.value, "command")
    ensures input.Some? && name == "Glob" ==> d == "Glob: " + FieldOr(input.value, "pattern")
    ensures input.Some? && name == "Grep" ==> StartsWith(d, "Grep: " + FieldOr(input.value, "pattern") + " ")
    ensures input.Some? && name !in {"Read", "Write", "Edit", "Bash", "Glob", "Grep"} ==> (
      (input.value == [] ==> d == name) &&
      (input.value != [] ==> d == name + ": " + JsString(ValueAt(input.value, ChosenKey(input.value)))) &&
      (input.value != [] && UniqueKeys(input.value) ==>
        d == name + ": " + JsString(input.value[ChosenKey(input.value)].1)))
  {
    match input
    case None => name
    case Some(fields) =>
      if name == "Read" then "Read: " + FieldOr(fields, "file_path")
      else if name == "Write" then "Write: " + FieldOr(fields, "file_path")
      else if name == "Edit" then "Edit: " + FieldOr(fields, "file_path")
      else if name == "Bash" then "Bash: " + FieldOr(fields, "command")
      else if name == "Glob" then "Glob: " + FieldOr(fields, "pattern")
      else if name == "Grep" then
        var path := Lookup(fields, "path");
        "Grep: " + FieldOr(fields, "pattern") + " "
          + (if path.Some? && Truthy(path.value) then "(" + JsString(path.value) + ")" else "")
      else if fields == [] then name
      else
        var value := ValueAt(fields, ChosenKey(fields));
        name + ": " + JsString(value)
  }

  /** An object's keys are pairwise distinct. */
  predicate UniqueKeys(fields: Input) {
    forall i, j :: 0 <= i < j < |fields| ==> fields[i].0 != fields[j].0
  }

  /** `input[key]` for the key at position i. */
  function ValueAt(fields: Input, i: nat): (v: Value)
    requires i < |fields|
    ensures UniqueKeys(fields) ==> v == fields[i].1
  {
    assert fields[i].0 == fields[i].0;
    if UniqueKeys(fields) then LookupUniqueKey(fields, i); Lookup(fields, fields[i].0).value
    else Lookup(fields, fields[i].0).value
  }

  /** In an object, looking up the key at position i finds the value at
      position i. */
  lemma {:induction false} LookupUniqueKey(fields: Input, i: nat)
    requires i < |fields| && UniqueKeys(fields)
    ensures Lookup(fields, fields[i].0) == Some(fields[i].1)
    decreases i
  {
    if i > 0 {
      assert fields[0].0 != fields[i].0;
      var rest := fields[1..];
      assert rest[i - 1] == fields[i];
      assert UniqueKeys(rest) by {
        forall a, b | 0 <= a < b < |rest|
          ensures rest[a].0 != rest[b].0
        {
          assert rest[a] == fields[a + 1] && rest[b] == fields[b + 1];
        }
      }
      LookupUniqueKey(rest, i - 1);
    }
  }
}
