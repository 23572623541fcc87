/**
  The onboarding screen (app/onboarding.tsx): four steps (name, age, gender,
  height and weight), a Next button that advances only past a filled-in
  step, a Back button, and the profile saved at the last step with the
  default baselines pulse 70, systolic 120, diastolic 80.

  `parseInt` is a parameter; the navigation to the home screen after saving
  is not modelled.
 */
module Onboarding {
  import opened Common
  import opened Types
  import S = Store

  const BaselinePulse: int := 70
  const BaselineSystolic: int := 120
  const BaselineDiastolic: int := 80

  datatype Form = Form(step: int, name: string, age: string, gender: Gender, height: string, weight: string)

  /** The first render: step 0, empty inputs, gender "other". */
  const Start: Form := Form(0, "", "", OtherGender, "", "")

  predicate ValidStep(f: Form) { 0 <= f.step <= 3 }

  /** The profile the last step saves; the language is left unset. */
  function ProfileOf(f: Form, parseInt: string -> int): (p: UserProfile)
    ensures p.avgPulse == BaselinePulse && p.avgSystolic == BaselineSystolic && p.avgDiastolic == BaselineDiastolic
    ensures p.name == f.name && p.gender == f.gender && p.language.None?
    ensures p.age == parseInt(f.age) && p.height == parseInt(f.height) && p.weight == parseInt(f.weight)
  {
    UserProfile(f.name, parseInt(f.age), f.gender, parseInt(f.height), parseInt(f.weight),
                BaselinePulse, BaselineSystolic, BaselineDiastolic, None)
  }

  /** `handleNext`: the new form, and the profile saved (if this press saves one). */
  function Next(f: Form, parseInt: string -> int): (r: (Form, Option<UserProfile>))
    ensures r.1.Some? <==> f.step == 3 && !Blank(f.height) && !Blank(f.weight)
    ensures r.1.Some? ==> r.1.value == ProfileOf(f, parseInt)
    ensures f.step == 0 ==> r.0.step == (if Blank(f.name) then 0 else 1)
    ensures f.step == 1 ==> r.0.step == (if Blank(f.age) then 1 else 2)
    ensures f.step == 2 ==> r.0.step == 3
    ensures f.step !in {0, 1, 2} ==> r.0.step == f.step
    ensures r.0 == f.(step := r.0.step)
  {
    if f.step == 0 && !Blank(f.name) then (f.(step := 1), None)
    else if f.step == 1 && !Blank(f.age) then (f.(step := 2), None)
    else if f.step == 2 then (f.(step := 3), None)
    else if f.step == 3 && !Blank(f.height) && !Blank(f.weight) then (f, Some(ProfileOf(f, parseInt)))
    else (f, None)
  }

  /** `handleBack`: one step back, never below the first. */
  function Back(f: Form): (r: Form)
    ensures f.step > 0 ==> r.step == f.step - 1
    ensures f.step <= 0 ==> r.step == f.step
    ensures r == f.(step := r.step)
  {
    if f.step > 0 then f.(step := f.step - 1) else f
  }

  /** The inputs of the screen. */
  datatype Event =
    | EnterName(name: string) | EnterAge(age: string) | PickGender(gender: Gender)
    | EnterHeight(height: string) | EnterWeight(weight: string)
    | PressNext | PressBack

  function Apply(f: Form, e: Event, parseInt: string -> int): (r: (Form, Option<UserProfile>))
    ensures !e.PressNext? ==> r.1.None?
  {
    match e
    case EnterName(v) => (f.(name := v), None)
    case EnterAge(v) => (f.(age := v), None)
    case PickGender(g) => (f.(gender := g), None)
    case EnterHeight(v) => (f.(height := v), None)
    case EnterWeight(v) => (f.(weight := v), None)
    case PressNext => Next(f, parseInt)
    case PressBack => (Back(f), None)
  }

  /** The form after a run of events, and the profiles saved along the way (the store keeps the last). */
  function Run(f: Form, es: seq<Event>, parseInt: string -> int): (r: (Form, seq<UserProfile>))
    decreases |es|
  {
    if |es| == 0 then (f, [])
    else
      var step := Apply(f, es[0], parseInt);
      var rest := Run(step.0, es[1..], parseInt);
      (rest.0, (if step.1.Some? then [step.1.value] else []) + rest.1)
  }

  /** One event moves the step by at most one and keeps it in 0..3. */
  lemma ApplyKeepsStep(f: Form, e: Event, parseInt: string -> int)
    requires ValidStep(f)
    ensures ValidStep(Apply(f, e, parseInt).0)
    ensures -1 <= Apply(f, e, parseInt).0.step - f.step <= 1
  {
  }

  /** Whatever the user does, the step stays in 0..3 and every saved profile carries the default baselines. */
  lemma {:induction false} RunKeepsStep(f: Form, es: seq<Event>, parseInt: string -> int)
    requires ValidStep(f)
    ensures ValidStep(Run(f, es, parseInt).0)
    ensures forall i :: 0 <= i < |Run(f, es, parseInt).1| ==>
      Run(f, es, parseInt).1[i].avgPulse == BaselinePulse
      && Run(f, es, parseInt).1[i].avgSystolic == BaselineSystolic
      && Run(f, es, parseInt).1[i].avgDiastolic == BaselineDiastolic
    decreases |es|
  {
    if |es| > 0 {
      ApplyKeepsStep(f, es[0], parseInt);
      RunKeepsStep(Apply(f, es[0], parseInt).0, es[1..], parseInt);
    }
  }

  /** Nothing is saved before step 3: from the start, a profile needs at least three Next presses. */
  lemma {:induction false} SaveNeedsSteps(f: Form, es: seq<Event>, parseInt: string -> int)
    requires ValidStep(f)
    requires |Run(f, es, parseInt).1| > 0
    ensures 3 - f.step <= CountNext(es)
    decreases |es|
  {
    if |es| > 0 {
      var step := Apply(f, es[0], parseInt);
      ApplyKeepsStep(f, es[0], parseInt);
      if step.1.None? {
        assert Run(f, es, parseInt).1 == Run(step.0, es[1..], parseInt).1;
        SaveNeedsSteps(step.0, es[1..], parseInt);
        if es[0].PressNext? {
          assert step.0.step <= f.step + 1;
        } else {
          assert step.0.step <= f.step;
        }
      } else {
        assert f.step == 3;
      }
    }
  }

  function CountNext(es: seq<Event>): nat
    decreases |es|
  {
    if |es| == 0 then 0 else (if es[0].PressNext? then 1 else 0) + CountNext(es[1..])
  }

  /** The last step's Next press stores the profile. */
  function Finish(s: S.Store, f: Form, parseInt: string -> int): (r: S.Store)
    ensures f.step == 3 && !Blank(f.height) && !Blank(f.weight) ==> r.userProfile == Some(ProfileOf(f, parseInt))
    ensures !(f.step == 3 && !Blank(f.height) && !Blank(f.weight)) ==> r == s
    ensures r == s.(userProfile := r.userProfile)
  {
    match Next(f, parseInt).1
    case None => s
    case Some(p) => S.UpdateUserProfile(s, p)
  }
}
