/**
 * Script templating (src/lib/scriptEngine.ts): a hook and a call to action
 * are picked from fixed template tables, the three body templates are used
 * in order, and the placeholders are filled by successive first-occurrence
 * replacements. `Math.random()` is a parameter `roll` in [0, 1).
 */
module ScriptEngine {
  import opened Text

  const BenefitSlot := "{benefit}"
  const NicheSlot := "{niche}"
  const StepOneSlot := "{stepOne}"
  const StepTwoSlot := "{stepTwo}"
  const StepThreeSlot := "{stepThree}"

  // Each template is written as the text before its one slot, the slot and
  // the text after it (or as plain text when it has no slot).
  const Hook0Lead := "Stop scrolling if you want to "
  const Hook1Lead := "You won't believe how fast you can "
  const Hook2Lead := "Do this daily to "
  const Hook2Tail := " in under 30 seconds."
  const Hook3Lead := "Here’s the "
  const Hook3Tail := " hack that actually works."
  const Hook4Lead := "The truth nobody tells you about "
  const Hooks: seq<string> := [
    Hook0Lead + BenefitSlot + ".",
    Hook1Lead + BenefitSlot + ".",
    Hook2Lead + BenefitSlot + Hook2Tail,
    Hook3Lead + NicheSlot + Hook3Tail,
    Hook4Lead + NicheSlot + "."]

  const Body0Lead := "Step 1: "
  const Body1Lead := "Next, "
  const Body1Tail := " to keep momentum."
  const Body2Lead := "Now "
  const Body2Tail := " so the algorithm keeps pushing you."
  const Bodies: seq<string> := [
    Body0Lead + StepOneSlot + ".",
    Body1Lead + StepTwoSlot + Body1Tail,
    Body2Lead + StepThreeSlot + Body2Tail]

  const Cta0Lead := "Follow for daily "
  const Cta0Tail := " boosts."
  const Cta1 := "Comment “READY” if you want a custom plan."
  const Cta2Lead := "Share this with someone who needs a "
  const Cta2Tail := " upgrade."
  const Cta3 := "Save this so you never forget the steps."
  const Ctas: seq<string> := [
    Cta0Lead + NicheSlot + Cta0Tail,
    Cta1,
    Cta2Lead + NicheSlot + Cta2Tail,
    Cta3]

  datatype ScriptOptions = ScriptOptions(
    niche: string, benefit: string, stepOne: string, stepTwo: string, stepThree: string)

  datatype GeneratedScript = GeneratedScript(
    hook: string, body: string, cta: string, script: string, niche: string)

  /** `Math.floor(roll * n)`: a valid index into a list of `n` items. */
  function PickIndex(roll: real, n: nat): (i: nat)
    requires 0.0 <= roll < 1.0 && n > 0
    ensures i < n
    ensures i as real <= roll * n as real < i as real + 1.0
  {
    var x := roll * n as real;
    MulPositive(1.0 - roll, n as real);
    MulPositive(n as real, roll);
    x.Floor
  }

  /** Products of positive and non-negative reals keep their sign. */
  lemma MulPositive(a: real, b: real)
    requires a > 0.0 && b >= 0.0
    ensures a * b >= 0.0 && (b > 0.0 ==> a * b > 0.0)
  {
  }

  /** `randomFrom(items)`: always one of the items. */
  function RandomFrom(items: seq<string>, roll: real): (r: string)
    requires 0.0 <= roll < 1.0 && |items| > 0
    ensures r in items
  {
    items[PickIndex(roll, |items|)]
  }

  /** The hook template with "{benefit}" and then "{niche}" replaced, once each. */
  function FillHook(template: string, o: ScriptOptions): (r: string)
    ensures !Contains(template, BenefitSlot) && !Contains(template, NicheSlot) ==> r == template
  {
    ReplaceFirst(ReplaceFirst(template, BenefitSlot, o.benefit), NicheSlot, o.niche)
  }

  /** A body template with the three step slots and then "{niche}" replaced, once each, in that order. */
  function FillBodyLine(line: string, o: ScriptOptions): (r: string)
    ensures (!Contains(line, StepOneSlot) && !Contains(line, StepTwoSlot) && !Contains(line, StepThreeSlot)
             && !Contains(line, NicheSlot)) ==> r == line
  {
    ReplaceFirst(
      ReplaceFirst(
        ReplaceFirst(ReplaceFirst(line, StepOneSlot, o.stepOne), StepTwoSlot, o.stepTwo),
        StepThreeSlot, o.stepThree),
      NicheSlot, o.niche)
  }

  /** The call-to-action template with "{niche}" replaced once. */
  function FillCta(template: string, o: ScriptOptions): (r: string)
    ensures !Contains(template, NicheSlot) ==> r == template
    ensures Contains(template, NicheSlot) ==> |r| == |template| - |NicheSlot| + |o.niche|
  {
    ReplaceFirst(template, NicheSlot, o.niche)
  }

  /** The three filled body lines joined by single spaces. */
  function FillBody(o: ScriptOptions): (r: string)
    ensures r == FillBodyLine(Bodies[0], o) + " " + FillBodyLine(Bodies[1], o) + " " + FillBodyLine(Bodies[2], o)
  {
    Join3(FillBodyLine(Bodies[0], o), FillBodyLine(Bodies[1], o), FillBodyLine(Bodies[2], o));
    Join([FillBodyLine(Bodies[0], o), FillBodyLine(Bodies[1], o), FillBodyLine(Bodies[2], o)], " ")
  }

  /** `generateScript(options)` with the two random draws as parameters. */
  function GenerateScript(o: ScriptOptions, hookRoll: real, ctaRoll: real): (r: GeneratedScript)
    requires 0.0 <= hookRoll < 1.0 && 0.0 <= ctaRoll < 1.0
    ensures r.script == r.hook + " " + r.body + " " + r.cta
    ensures r.niche == o.niche
    ensures r.body == FillBody(o)
    ensures exists i :: 0 <= i < |Hooks| && r.hook == FillHook(Hooks[i], o)
    ensures exists j :: 0 <= j < |Ctas| && r.cta == FillCta(Ctas[j], o)
  {
    var hi := PickIndex(hookRoll, |Hooks|);
    var ci := PickIndex(ctaRoll, |Ctas|);
    var hook := FillHook(Hooks[hi], o);
    var body := FillBody(o);
    var cta := FillCta(Ctas[ci], o);
    GeneratedScript(hook, body, cta, hook + " " + body + " " + cta, o.niche)
  }

  // ---------------------------------------------------------------------
  // What the filled templates are when the inputs hold no '{'
  // ---------------------------------------------------------------------

  /** None of the user's phrases contains '{', so none can be mistaken for a placeholder. */
  predicate BraceFree(o: ScriptOptions) {
    '{' !in o.niche && '{' !in o.benefit && '{' !in o.stepOne && '{' !in o.stepTwo && '{' !in o.stepThree
  }

  /**
   * In `a + slot + b` whose only '{' opens `slot`, a pattern that starts
   * with '{' but differs from `slot` at position `k` is not found.
   */
  lemma OtherSlotAbsent(a: string, slot: string, b: string, pat: string, k: nat)
    requires slot != [] && slot[0] == '{' && '{' !in slot[1..]
    requires '{' !in a && '{' !in b
    requires pat != [] && pat[0] == '{'
    requires k < |pat| && k < |slot| && pat[k] != slot[k]
    ensures !Contains(a + slot + b, pat)
  {
    var s := a + slot + b;
    forall j | 0 <= j && j + |pat| <= |s| ensures !OccursAt(s, pat, j) {
      assert s[j..j + |pat|][0] == s[j];
      if j < |a| {
        assert s[j] == a[j];
        assert a[j] in a;
      } else if j == |a| {
        assert s[j..j + |pat|][k] == s[j + k] == slot[k];
      } else if j < |a| + |slot| {
        assert s[j] == slot[1..][j - |a| - 1];
        assert slot[1..][j - |a| - 1] in slot[1..];
      } else {
        assert s[j] == b[j - |a| - |slot|];
        assert b[j - |a| - |slot|] in b;
      }
    }
    FindSpec(s, pat);
  }

  /** Filling `a + slot + b` (only '{' in `slot`) with brace-free `rep` yields `a + rep + b`, still brace-free. */
  lemma FillSlot(a: string, slot: string, b: string, rep: string)
    requires slot != [] && slot[0] == '{'
    requires '{' !in a && '{' !in b && '{' !in rep
    ensures ReplaceFirst(a + slot + b, slot, rep) == a + rep + b
    ensures '{' !in a + rep + b
  {
    ReplaceAt(a, slot, b, rep);
  }

  /** A hook built around "{benefit}": the benefit takes the slot and nothing else changes. */
  lemma FillBenefitHook(a: string, b: string, o: ScriptOptions)
    requires BraceFree(o) && '{' !in a && '{' !in b
    ensures FillHook(a + BenefitSlot + b, o) == a + o.benefit + b
    ensures '{' !in FillHook(a + BenefitSlot + b, o)
  {
    FillSlot(a, BenefitSlot, b, o.benefit);
    ReplaceAbsent(a + o.benefit + b, NicheSlot, o.niche);
  }

  /** A hook built around "{niche}": "{benefit}" is not found, then the niche takes the slot. */
  lemma FillNicheHook(a: string, b: string, o: ScriptOptions)
    requires BraceFree(o) && '{' !in a && '{' !in b
    ensures FillHook(a + NicheSlot + b, o) == a + o.niche + b
    ensures '{' !in FillHook(a + NicheSlot + b, o)
  {
    OtherSlotAbsent(a, NicheSlot, b, BenefitSlot, 1);
    FillSlot(a, NicheSlot, b, o.niche);
  }

  // One lemma per template keeps each literal in a proof of its own.

  lemma Hook0Filled(o: ScriptOptions)
    requires BraceFree(o)
    ensures FillHook(Hooks[0], o) == "Stop scrolling if you want to " + o.benefit + "."
    ensures '{' !in FillHook(Hooks[0], o)
  {
    FillBenefitHook(Hook0Lead, ".", o);
  }

  lemma Hook1Filled(o: ScriptOptions)
    requires BraceFree(o)
    ensures FillHook(Hooks[1], o) == "You won't believe how fast you can " + o.benefit + "."
    ensures '{' !in FillHook(Hooks[1], o)
  {
    FillBenefitHook(Hook1Lead, ".", o);
  }

  lemma Hook2Filled(o: ScriptOptions)
    requires BraceFree(o)
    ensures FillHook(Hooks[2], o) == "Do this daily to " + o.benefit + " in under 30 seconds."
    ensures '{' !in FillHook(Hooks[2], o)
  {
    FillBenefitHook(Hook2Lead, Hook2Tail, o);
  }

  lemma Hook3Filled(o: ScriptOptions)
    requires BraceFree(o)
    ensures FillHook(Hooks[3], o) == "Here’s the " + o.niche + " hack that actually works."
    ensures '{' !in FillHook(Hooks[3], o)
  {
    FillNicheHook(Hook3Lead, Hook3Tail, o);
  }

  lemma Hook4Filled(o: ScriptOptions)
    requires BraceFree(o)
    ensures FillHook(Hooks[4], o) == "The truth nobody tells you about " + o.niche + "."
    ensures '{' !in FillHook(Hooks[4], o)
  {
    FillNicheHook(Hook4Lead, ".", o);
  }

  /** Each hook template, filled, is its text with its one slot replaced by the user's phrase. */
  lemma HookFilled(o: ScriptOptions)
    requires BraceFree(o)
    ensures FillHook(Hooks[0], o) == "Stop scrolling if you want to " + o.benefit + "."
    ensures FillHook(Hooks[1], o) == "You won't believe how fast you can " + o.benefit + "."
    ensures FillHook(Hooks[2], o) == "Do this daily to " + o.benefit + " in under 30 seconds."
    ensures FillHook(Hooks[3], o) == "Here’s the " + o.niche + " hack that actually works."
    ensures FillHook(Hooks[4], o) == "The truth nobody tells you about " + o.niche + "."
  {
    Hook0Filled(o);
    Hook1Filled(o);
    Hook2Filled(o);
    Hook3Filled(o);
    Hook4Filled(o);
  }

  /** The first body line: "{stepOne}" takes its slot; the later replacements find nothing. */
  lemma BodyLineOne(o: ScriptOptions)
    requires BraceFree(o)
    ensures FillBodyLine(Bodies[0], o) == "Step 1: " + o.stepOne + "."
    ensures '{' !in FillBodyLine(Bodies[0], o)
  {
    var a, b := Body0Lead, ".";
    FillSlot(a, StepOneSlot, b, o.stepOne);
    var s := a + o.stepOne + b;
    ReplaceAbsent(s, StepTwoSlot, o.stepTwo);
    ReplaceAbsent(s, StepThreeSlot, o.stepThree);
    ReplaceAbsent(s, NicheSlot, o.niche);
  }

  /** The second body line: "{stepOne}" is not found, "{stepTwo}" takes its slot. */
  lemma BodyLineTwo(o: ScriptOptions)
    requires BraceFree(o)
    ensures FillBodyLine(Bodies[1], o) == "Next, " + o.stepTwo + " to keep momentum."
    ensures '{' !in FillBodyLine(Bodies[1], o)
  {
    var a, b := Body1Lead, Body1Tail;
    OtherSlotAbsent(a, StepTwoSlot, b, StepOneSlot, 5);
    FillSlot(a, StepTwoSlot, b, o.stepTwo);
    var s := a + o.stepTwo + b;
    ReplaceAbsent(s, StepThreeSlot, o.stepThree);
    ReplaceAbsent(s, NicheSlot, o.niche);
  }

  /** The third body line: the first two step slots are not found, "{stepThree}" takes its slot. */
  lemma BodyLineThree(o: ScriptOptions)
    requires BraceFree(o)
    ensures FillBodyLine(Bodies[2], o) == "Now " + o.stepThree + " so the algorithm keeps pushing you."
    ensures '{' !in FillBodyLine(Bodies[2], o)
  {
    var a, b := Body2Lead, Body2Tail;
    OtherSlotAbsent(a, StepThreeSlot, b, StepOneSlot, 5);
    OtherSlotAbsent(a, StepThreeSlot, b, StepTwoSlot, 6);
    FillSlot(a, StepThreeSlot, b, o.stepThree);
    ReplaceAbsent(a + o.stepThree + b, NicheSlot, o.niche);
  }

  lemma Join3(a: string, b: string, c: string)
    ensures Join([a, b, c], " ") == a + " " + b + " " + c
  {
    JoinCons(a, [b, c], " ");
    assert [a, b, c][1..] == [b, c];
    JoinCons(b, [c], " ");
  }

  /** The body is the three step sentences in template order, separated by single spaces. */
  lemma BodyFilled(o: ScriptOptions)
    requires BraceFree(o)
    ensures FillBody(o) ==
      ("Step 1: " + o.stepOne + ".") + " " + ("Next, " + o.stepTwo + " to keep momentum.") + " "
      + ("Now " + o.stepThree + " so the algorithm keeps pushing you.")
  {
    BodyLineOne(o);
    BodyLineTwo(o);
    BodyLineThree(o);
    Join3(FillBodyLine(Bodies[0], o), FillBodyLine(Bodies[1], o), FillBodyLine(Bodies[2], o));
  }

  lemma BodyBraceFree(o: ScriptOptions)
    requires BraceFree(o)
    ensures '{' !in FillBody(o)
  {
    var l0, l1, l2 := FillBodyLine(Bodies[0], o), FillBodyLine(Bodies[1], o), FillBodyLine(Bodies[2], o);
    assert '{' !in l0 by { BodyLineOne(o); }
    assert '{' !in l1 by { BodyLineTwo(o); }
    assert '{' !in l2 by { BodyLineThree(o); }
    Join3(l0, l1, l2);
  }

  lemma Cta0Filled(o: ScriptOptions)
    requires '{' !in o.niche
    ensures FillCta(Ctas[0], o) == "Follow for daily " + o.niche + " boosts."
    ensures '{' !in FillCta(Ctas[0], o)
  {
    FillSlot(Cta0Lead, NicheSlot, Cta0Tail, o.niche);
  }

  lemma Cta1Verbatim(o: ScriptOptions)
    ensures FillCta(Ctas[1], o) == Ctas[1] && '{' !in Ctas[1]
  {
    ReplaceAbsent(Cta1, NicheSlot, o.niche);
  }

  lemma Cta2Filled(o: ScriptOptions)
    requires '{' !in o.niche
    ensures FillCta(Ctas[2], o) == "Share this with someone who needs a " + o.niche + " upgrade."
    ensures '{' !in FillCta(Ctas[2], o)
  {
    FillSlot(Cta2Lead, NicheSlot, Cta2Tail, o.niche);
  }

  lemma Cta3Verbatim(o: ScriptOptions)
    ensures FillCta(Ctas[3], o) == Ctas[3] && '{' !in Ctas[3]
  {
    ReplaceAbsent(Cta3, NicheSlot, o.niche);
  }

  lemma HookBraceFree(o: ScriptOptions, i: nat)
    requires BraceFree(o) && i < |Hooks|
    ensures '{' !in FillHook(Hooks[i], o)
  {
    if i == 0 {
      Hook0Filled(o);
    } else if i == 1 {
      Hook1Filled(o);
    } else if i == 2 {
      Hook2Filled(o);
    } else if i == 3 {
      Hook3Filled(o);
    } else {
      Hook4Filled(o);
    }
  }

  /** The two templates without a slot come back verbatim and the other two get the niche in their slot. */
  lemma CtaBraceFree(o: ScriptOptions, j: nat)
    requires '{' !in o.niche && j < |Ctas|
    ensures '{' !in FillCta(Ctas[j], o)
  {
    if j == 0 {
      Cta0Filled(o);
    } else if j == 1 {
      Cta1Verbatim(o);
    } else if j == 2 {
      Cta2Filled(o);
    } else {
      Cta3Verbatim(o);
    }
  }

  /**
   * Every template has at most one slot, so when no phrase holds '{', no '{'
   * is left in the hook, the body, the call to action or the whole script.
   */
  lemma NoPlaceholderLeft(o: ScriptOptions, hookRoll: real, ctaRoll: real)
    requires 0.0 <= hookRoll < 1.0 && 0.0 <= ctaRoll < 1.0
    requires BraceFree(o)
    ensures var r := GenerateScript(o, hookRoll, ctaRoll);
      '{' !in r.hook && '{' !in r.body && '{' !in r.cta && '{' !in r.script
  {
    HookBraceFree(o, PickIndex(hookRoll, |Hooks|));
    BodyBraceFree(o);
    CtaBraceFree(o, PickIndex(ctaRoll, |Ctas|));
  }
}
