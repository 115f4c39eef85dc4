/**
 * The plain-text forms of a recipe used for sharing (components/ShareModal.tsx):
 * the message text of `formatRecipeForSharing`, and the subject and body of the
 * e-mail built by `handleShareEmail`.
 *
 * Both texts are template literals that open with a line break and close with a
 * line break and indentation; both are then trimmed and have every run of blank
 * lines collapsed to a single empty line (Text.Tidy).
 */
module ShareModal {
  import opened Types
  import opened Text

  const ShareSignature: string := "Shared from What2Cook!"
  const EmailGreeting: string := "Hello!"
  const EmailSignature: string := "Shared from What2Cook."
  const SubjectLead: string := "Check out this recipe: "

  /** The fixed lines of the message text. */
  const IngredientsHeading: string := "*Ingredients:*"
  const InstructionsHeading: string := "*Instructions:*"

  /** The fixed lines and line starts of the e-mail body. */
  const IntroLead: string := "Here is a recipe for "
  const Rule: string := "--------------------"
  const IngredientsTitle: string := "INGREDIENTS"
  const InstructionsTitle: string := "INSTRUCTIONS"
  const Closing: string := "Enjoy!"

  /** The bullet of the message text's ingredient lines. */
  const Dash: string := "- "
  /** The bullet of the e-mail's ingredient lines (U+2022 and a space). */
  const Dot: string := "\U{2022} "

  /** One line per ingredient, in recipe order: bullet, quantity, a space, name. */
  function IngredientLines(ingredients: seq<Ingredient>, bullet: string): (lines: seq<string>)
    ensures |lines| == |ingredients|
    ensures forall i :: 0 <= i < |lines| ==>
      lines[i] == bullet + ingredients[i].quantity + " " + ingredients[i].name
  {
    seq(|ingredients|, i requires 0 <= i < |ingredients| =>
      bullet + ingredients[i].quantity + " " + ingredients[i].name)
  }

  /** One line per step, in recipe order, numbered from 1. */
  function InstructionLines(steps: seq<string>): (lines: seq<string>)
    ensures |lines| == |steps|
  {
    seq(|steps|, i requires 0 <= i < |steps| => DecimalString(i + 1) + ". " + steps[i])
  }

  /** The steps are numbered consecutively from 1: line i starts with the
      decimal digits of i + 1, then ". ", then step i verbatim. */
  lemma {:induction false} InstructionNumbering(steps: seq<string>, i: nat)
    requires i < |steps|
    ensures var line := InstructionLines(steps)[i];
      var n := |DecimalString(i + 1)|;
      n + 2 <= |line| &&
      (forall k :: 0 <= k < n ==> IsDigit(line[k])) &&
      DecimalValue(line[..n]) == i + 1 &&
      line[n..n + 2] == ". " && line[n + 2..] == steps[i]
  {
    var line := InstructionLines(steps)[i];
    var d := DecimalString(i + 1);
    assert line == d + ". " + steps[i];
    assert line[..|d|] == d;
    DecimalRoundTrip(i + 1);
  }

  /** The first lines and the signatures hold no line break, and the
      signatures start and end with a visible character. */
  lemma {:induction false} SignatureFrames()
    ensures '\n' !in "*" && '\n' !in EmailGreeting && !IsSpace(EmailGreeting[0])
    ensures '\n' !in ShareSignature && !IsSpace(ShareSignature[0]) && !IsSpace(ShareSignature[|ShareSignature| - 1])
    ensures '\n' !in EmailSignature && !IsSpace(EmailSignature[0]) && !IsSpace(EmailSignature[|EmailSignature| - 1])
  {
    assert EmailGreeting[0] == 'H';
    assert ShareSignature[0] == 'S' && ShareSignature[|ShareSignature| - 1] == '!';
    assert EmailSignature[0] == 'S' && EmailSignature[|EmailSignature| - 1] == '.';
  }

  // ---------------------------------------------------------------------------
  // formatRecipeForSharing
  // ---------------------------------------------------------------------------

  /** The part of the template between the starred name and the signature. */
  function ShareBody(recipe: Recipe): string {
    "\n\n" + recipe.description
    + "\n\n" + IngredientsHeading + "\n" + Join(IngredientLines(recipe.ingredients, Dash), "\n")
    + "\n\n" + InstructionsHeading + "\n" + Join(InstructionLines(recipe.instructions), "\n")
    + "\n\n"
  }

  /** `formatRecipeForSharing`: the template literal is a line break, '*', the
      name, '*', the body, the signature, a line break and indentation; it is
      trimmed and its blank-line runs collapsed. The result opens with '*' (with
      the starred name and the collapsed body when the name is one line), closes
      with the signature, has no whitespace at either end and no run of blank
      lines. */
  function FormatRecipeForSharing(recipe: Recipe): (r: string)
    ensures r == "*" + CollapseBlankLines(recipe.recipeName + "*" + ShareBody(recipe)) + ShareSignature
    ensures '\n' !in recipe.recipeName ==>
      r == "*" + recipe.recipeName + "*" + CollapseBlankLines(ShareBody(recipe)) + ShareSignature
    ensures TrimmedEnds(r) && BlankLinesCollapsed(r)
    ensures |r| > |ShareSignature| && r[0] == '*'
    ensures r[|r| - |ShareSignature|..] == ShareSignature
  {
    var n := recipe.recipeName;
    var body := ShareBody(recipe);
    SignatureFrames();
    if '\n' !in n then NamePrefixCollapsed(n, body); TidyFrame("*", n + "*" + body, ShareSignature)
    else TidyFrame("*", n + "*" + body, ShareSignature)
  }

  lemma {:induction false} NamePrefixCollapsed(n: string, body: string)
    requires '\n' !in n
    ensures "*" + CollapseBlankLines(n + "*" + body) + ShareSignature
         == "*" + n + "*" + CollapseBlankLines(body) + ShareSignature
  {
    assert n + "*" + body == (n + "*") + body;
    CollapseNewlineFreePrefix(n + "*", body);
  }

  // ---------------------------------------------------------------------------
  // handleShareEmail
  // ---------------------------------------------------------------------------

  /** The e-mail subject. */
  function EmailSubject(recipe: Recipe): (r: string)
    ensures |r| == |SubjectLead| + |recipe.recipeName|
    ensures r[..|SubjectLead|] == SubjectLead && r[|SubjectLead|..] == recipe.recipeName
  {
    SubjectLead + recipe.recipeName
  }

  /** The subject names the recipe: two recipes get the same subject exactly
      when they have the same name. */
  lemma {:induction false} EmailSubjectNamesRecipe(recipe1: Recipe, recipe2: Recipe)
    ensures EmailSubject(recipe1) == EmailSubject(recipe2) <==> recipe1.recipeName == recipe2.recipeName
  {
    if EmailSubject(recipe1) == EmailSubject(recipe2) {
      assert recipe1.recipeName == EmailSubject(recipe1)[|SubjectLead|..];
    }
  }

  /** Everything between the greeting and the signature. */
  function EmailMiddle(recipe: Recipe): string {
    "\n\n" + IntroLead + recipe.recipeName + ":\n\n" + recipe.description
    + "\n\n" + Rule + "\n" + IngredientsTitle + "\n" + Rule + "\n" + Join(IngredientLines(recipe.ingredients, Dot), "\n")
    + "\n\n" + Rule + "\n" + InstructionsTitle + "\n" + Rule + "\n" + Join(InstructionLines(recipe.instructions), "\n")
    + "\n\n" + Closing + "\n"
  }

  /** The e-mail body: the template literal is a line break, the greeting, the
      middle, the signature, a line break and indentation; trimmed and with its
      blank-line runs collapsed it opens with the greeting, closes with the
      signature, has no whitespace at either end and no run of blank lines. */
  function EmailBody(recipe: Recipe): (r: string)
    ensures r == EmailGreeting + CollapseBlankLines(EmailMiddle(recipe)) + EmailSignature
    ensures TrimmedEnds(r) && BlankLinesCollapsed(r)
    ensures |r| >= |EmailGreeting| + |EmailSignature|
    ensures r[..|EmailGreeting|] == EmailGreeting
    ensures r[|r| - |EmailSignature|..] == EmailSignature
  {
    SignatureFrames();
    TidyFrame(EmailGreeting, EmailMiddle(recipe), EmailSignature)
  }

  // ---------------------------------------------------------------------------
  // The texts, line by line
  // ---------------------------------------------------------------------------

  /** The recipe fits the line structure of the texts: no field holds a line
      break, the description shows something, and there is at least one
      ingredient and one step. */
  predicate LineShaped(recipe: Recipe) {
    '\n' !in recipe.recipeName && '\n' !in recipe.description && !AllSpace(recipe.description) &&
    |recipe.ingredients| > 0 && |recipe.instructions| > 0 &&
    (forall ing :: ing in recipe.ingredients ==> '\n' !in ing.quantity && '\n' !in ing.name) &&
    (forall step :: step in recipe.instructions ==> '\n' !in step)
  }

  /** The lines of the message text, read off the template. */
  function ShareLines(recipe: Recipe): seq<string> {
    ["*" + recipe.recipeName + "*", "", recipe.description, "", IngredientsHeading]
    + IngredientLines(recipe.ingredients, Dash)
    + ["", InstructionsHeading]
    + InstructionLines(recipe.instructions)
    + ["", ShareSignature]
  }

  /** An empty line, a rule, a section title and a rule. */
  function RuleBlock(title: string): seq<string> {
    ["", Rule, title, Rule]
  }

  /** The lines of the e-mail body, read off the template. */
  function EmailLines(recipe: Recipe): seq<string> {
    [EmailGreeting, "", IntroLead + recipe.recipeName + ":", "", recipe.description]
    + RuleBlock(IngredientsTitle)
    + IngredientLines(recipe.ingredients, Dot)
    + RuleBlock(InstructionsTitle)
    + InstructionLines(recipe.instructions)
    + ["", Closing, EmailSignature]
  }

  // Joining the lines

  lemma {:induction false} JoinFive(a: string, b: string, c: string, d: string, e: string)
    ensures Join([a, b, c, d, e], "\n") == a + "\n" + b + "\n" + c + "\n" + d + "\n" + e
  {
    assert [a, b, c, d, e][1..] == [b, c, d, e];
    assert Join([a, b, c, d, e], "\n") == a + "\n" + Join([b, c, d, e], "\n");
    JoinFour(b, c, d, e);
  }

  lemma {:induction false} JoinFour(a: string, b: string, c: string, d: string)
    ensures Join([a, b, c, d], "\n") == a + "\n" + b + "\n" + c + "\n" + d
  {
    assert [a, b, c, d][1..] == [b, c, d];
    assert Join([a, b, c, d], "\n") == a + "\n" + Join([b, c, d], "\n");
    JoinThree(b, c, d);
  }

  lemma {:induction false} JoinThree(a: string, b: string, c: string)
    ensures Join([a, b, c], "\n") == a + "\n" + b + "\n" + c
  {
    assert [a, b, c][1..] == [b, c];
  }

  /** Joining a head block, the ingredient lines, a middle block, the step
      lines and a closing block: one line break between consecutive parts. */
  lemma {:induction false} JoinBlocks(head: seq<string>, ingredients: seq<string>, middle: seq<string>,
                   steps: seq<string>, closing: seq<string>)
    requires |head| > 0 && |ingredients| > 0 && |middle| > 0 && |steps| > 0 && |closing| > 0
    ensures Join(head + ingredients + middle + steps + closing, "\n")
         == Join(head, "\n") + "\n" + Join(ingredients, "\n") + "\n" + Join(middle, "\n") + "\n"
            + Join(steps, "\n") + "\n" + Join(closing, "\n")
  {
    JoinAppend(head, ingredients, "\n");
    JoinAppend(head + ingredients, middle, "\n");
    JoinAppend(head + ingredients + middle, steps, "\n");
    JoinAppend(head + ingredients + middle + steps, closing, "\n");
  }

  // The lines are well spaced

  /** A line that shows something and holds no line break. */
  predicate ShowsText(line: string) {
    '\n' !in line && !AllSpace(line)
  }

  lemma {:induction false} ShareFixedLines()
    ensures ShowsText(IngredientsHeading) && ShowsText(InstructionsHeading) && ShowsText(ShareSignature)
  {
    assert IngredientsHeading[0] == '*' && InstructionsHeading[0] == '*' && ShareSignature[0] == 'S';
  }

  lemma {:induction false} EmailFixedLines()
    ensures ShowsText(EmailGreeting) && ShowsText(Closing) && ShowsText(EmailSignature)
    ensures '\n' !in IntroLead && IntroLead[0] == 'H'
  {
    assert EmailGreeting[0] == 'H' && Closing[0] == 'E' && EmailSignature[0] == 'S';
  }

  lemma {:induction false} EmailRuleLines()
    ensures ShowsText(Rule) && ShowsText(IngredientsTitle) && ShowsText(InstructionsTitle)
  {
    assert Rule[0] == '-' && IngredientsTitle[0] == 'I' && InstructionsTitle[0] == 'I';
  }

  lemma {:induction false} DotBullet()
    ensures Dot != [] && !IsSpace(Dot[0]) && '\n' !in Dot
  {
    assert Dot[0] == '\U{2022}';
  }

  /** A line that starts with a visible character shows text. */
  lemma {:induction false} VisibleStart(line: string)
    requires line != [] && !IsSpace(line[0]) && '\n' !in line
    ensures ShowsText(line)
  {
    assert !IsSpace(line[0]);
  }

  lemma {:induction false} SpacedTriple(a: string, b: string, c: string)
    requires ShowsText(a) && ShowsText(b) && ShowsText(c)
    ensures WellSpacedLines([a, "", b, "", c])
  {
  }

  lemma {:induction false} EmptyLineThen(a: string)
    requires ShowsText(a)
    ensures WellSpacedLines(["", a])
  {
  }

  lemma {:induction false} EmptyLineThenTwo(a: string, b: string)
    requires ShowsText(a) && ShowsText(b)
    ensures WellSpacedLines(["", a, b])
  {
  }

  lemma {:induction false} RuleBlockSpaced(title: string)
    requires ShowsText(Rule) && ShowsText(title)
    ensures WellSpacedLines(RuleBlock(title))
  {
  }

  /** Ingredient lines start with a visible bullet and hold no line break when
      the ingredients hold none. */
  lemma {:induction false} IngredientLinesWellSpaced(ingredients: seq<Ingredient>, bullet: string)
    requires bullet != [] && !IsSpace(bullet[0]) && '\n' !in bullet
    requires forall ing :: ing in ingredients ==> '\n' !in ing.quantity && '\n' !in ing.name
    ensures WellSpacedLines(IngredientLines(ingredients, bullet))
  {
    var lines := IngredientLines(ingredients, bullet);
    forall i | 0 <= i < |lines| ensures '\n' !in lines[i] && lines[i] != [] && !AllSpace(lines[i]) {
      assert ingredients[i] in ingredients;
      assert lines[i][0] == bullet[0];
    }
  }

  /** Step lines start with a digit and hold no line break when the steps hold none. */
  lemma {:induction false} InstructionLinesWellSpaced(steps: seq<string>)
    requires forall step :: step in steps ==> '\n' !in step
    ensures WellSpacedLines(InstructionLines(steps))
  {
    var lines := InstructionLines(steps);
    forall i | 0 <= i < |lines| ensures '\n' !in lines[i] && lines[i] != [] && !AllSpace(lines[i]) {
      assert steps[i] in steps;
      var d := DecimalString(i + 1);
      assert lines[i] == d + ". " + steps[i];
      assert '\n' !in d by {
        forall k | 0 <= k < |d| ensures d[k] != '\n' {
          assert IsDigit(d[k]);
        }
      }
      assert lines[i][0] == d[0] && IsDigit(d[0]);
    }
  }

  /** Five well-spaced blocks whose inner boundaries are not empty lines on
      both sides form well-spaced lines. */
  lemma {:induction false} BlocksWellSpaced(head: seq<string>, ingredients: seq<string>, middle: seq<string>,
                         steps: seq<string>, closing: seq<string>)
    requires WellSpacedLines(head) && WellSpacedLines(ingredients) && WellSpacedLines(middle)
    requires WellSpacedLines(steps) && WellSpacedLines(closing)
    requires |head| > 0 && |ingredients| > 0 && |middle| > 0 && |steps| > 0
    requires head[|head| - 1] != "" && ingredients[|ingredients| - 1] != ""
    requires middle[|middle| - 1] != "" && steps[|steps| - 1] != ""
    ensures WellSpacedLines(head + ingredients + middle + steps + closing)
  {
    WellSpacedAppend(head, ingredients);
    WellSpacedAppend(head + ingredients, middle);
    WellSpacedAppend(head + ingredients + middle, steps);
    WellSpacedAppend(head + ingredients + middle + steps, closing);
  }

  lemma {:induction false} ShareLinesWellSpaced(recipe: Recipe)
    requires LineShaped(recipe)
    ensures WellSpacedLines(ShareLines(recipe))
  {
    var name := "*" + recipe.recipeName + "*";
    ShareFixedLines();
    VisibleStart(name);
    SpacedTriple(name, recipe.description, IngredientsHeading);
    IngredientLinesWellSpaced(recipe.ingredients, Dash);
    InstructionLinesWellSpaced(recipe.instructions);
    EmptyLineThen(InstructionsHeading);
    EmptyLineThen(ShareSignature);
    BlocksWellSpaced([name, "", recipe.description, "", IngredientsHeading],
                     IngredientLines(recipe.ingredients, Dash), ["", InstructionsHeading],
                     InstructionLines(recipe.instructions), ["", ShareSignature]);
  }

  /** The greeting, the introduction and the description, each followed by
      an empty line, then the ingredients' rule block. */
  lemma {:induction false} EmailHeadWellSpaced(n: string, desc: string)
    requires '\n' !in n && ShowsText(desc)
    ensures WellSpacedLines([EmailGreeting, "", IntroLead + n + ":", "", desc] + RuleBlock(IngredientsTitle))
  {
    var intro := IntroLead + n + ":";
    EmailFixedLines();
    EmailRuleLines();
    assert intro[0] == 'H';
    VisibleStart(intro);
    SpacedTriple(EmailGreeting, intro, desc);
    RuleBlockSpaced(IngredientsTitle);
    WellSpacedAppend([EmailGreeting, "", intro, "", desc], RuleBlock(IngredientsTitle));
  }

  lemma {:induction false} EmailLinesWellSpaced(recipe: Recipe)
    requires LineShaped(recipe)
    ensures WellSpacedLines(EmailLines(recipe))
  {
    var head := [EmailGreeting, "", IntroLead + recipe.recipeName + ":", "", recipe.description]
                + RuleBlock(IngredientsTitle);
    EmailHeadWellSpaced(recipe.recipeName, recipe.description);
    EmailFixedLines();
    EmailRuleLines();
    DotBullet();
    IngredientLinesWellSpaced(recipe.ingredients, Dot);
    RuleBlockSpaced(InstructionsTitle);
    InstructionLinesWellSpaced(recipe.instructions);
    EmptyLineThenTwo(Closing, EmailSignature);
    assert RuleBlock(IngredientsTitle)[3] == Rule;
    assert head[|head| - 1] == Rule;
    BlocksWellSpaced(head, IngredientLines(recipe.ingredients, Dot), RuleBlock(InstructionsTitle),
                     InstructionLines(recipe.instructions), ["", Closing, EmailSignature]);
  }

  // The message text, line by line

  /** The starred name, the body and the signature, regrouped as lines. */
  lemma {:induction false} ShareCore(n: string, desc: string, h1: string, h2: string,
                                     j1: string, j2: string, signature: string)
    ensures "*" + (n + "*" + ("\n\n" + desc + "\n\n" + h1 + "\n" + j1 + "\n\n" + h2 + "\n" + j2 + "\n\n"))
            + signature
         == ("*" + n + "*" + "\n" + "" + "\n" + desc + "\n" + "" + "\n" + h1) + "\n" + j1 + "\n"
            + ("" + "\n" + h2) + "\n" + j2 + "\n" + ("" + "\n" + signature)
  {
    var name := "*" + n + "*";
    var p := name + "\n" + "" + "\n" + desc + "\n" + "" + "\n" + h1;
    var r2 := "" + "\n" + h2;
    var r3 := "" + "\n" + signature;
    ShareBodyParts(n, desc, h1, h2, j1, j2, signature);
    ShareHeadLines(name, desc, h1);
    assert "\n" + r2 + "\n" == "\n\n" + h2 + "\n";
    assert "\n" + r3 == "\n\n" + signature;
    ShareRegroup(p, r2, r3, j1, j2);
  }

  lemma {:induction false} ShareBodyParts(n: string, desc: string, h1: string, h2: string,
                                          j1: string, j2: string, signature: string)
    ensures "*" + (n + "*" + ("\n\n" + desc + "\n\n" + h1 + "\n" + j1 + "\n\n" + h2 + "\n" + j2 + "\n\n"))
            + signature
         == ("*" + n + "*" + ("\n\n" + desc + "\n\n" + h1 + "\n")) + j1 + ("\n\n" + h2 + "\n") + j2
            + ("\n\n" + signature)
  {
  }

  lemma {:induction false} ShareHeadLines(name: string, desc: string, h1: string)
    ensures name + "\n" + "" + "\n" + desc + "\n" + "" + "\n" + h1 + "\n"
         == name + ("\n\n" + desc + "\n\n" + h1 + "\n")
  {
    assert "\n" + "" + "\n" == "\n\n";
  }

  lemma {:induction false} ShareRegroup(p: string, r2: string, r3: string, j1: string, j2: string)
    ensures p + "\n" + j1 + "\n" + r2 + "\n" + j2 + "\n" + r3
         == (p + "\n") + j1 + ("\n" + r2 + "\n") + j2 + ("\n" + r3)
  {
  }

  /** The share template between its opening and closing whitespace is the
      join of the share lines. */
  lemma {:induction false} ShareJoin(recipe: Recipe)
    requires |recipe.ingredients| > 0 && |recipe.instructions| > 0
    ensures Join(ShareLines(recipe), "\n") == "*" + (recipe.recipeName + "*" + ShareBody(recipe)) + ShareSignature
  {
    var n := recipe.recipeName;
    var desc := recipe.description;
    var il := IngredientLines(recipe.ingredients, Dash);
    var nl := InstructionLines(recipe.instructions);
    JoinBlocks(["*" + n + "*", "", desc, "", IngredientsHeading], il, ["", InstructionsHeading], nl,
               ["", ShareSignature]);
    JoinFive("*" + n + "*", "", desc, "", IngredientsHeading);
    ShareCore(n, desc, IngredientsHeading, InstructionsHeading, Join(il, "\n"), Join(nl, "\n"), ShareSignature);
  }

  /** For a recipe of single-line fields, the message text is exactly its lines
      joined by line breaks: the starred name, an empty line, the description, an
      empty line, the ingredients heading and lines, an empty line, the
      instructions heading and numbered steps, an empty line, the signature. */
  lemma {:induction false} ShareTextLines(recipe: Recipe)
    requires LineShaped(recipe)
    ensures FormatRecipeForSharing(recipe) == Join(ShareLines(recipe), "\n")
    ensures Split(FormatRecipeForSharing(recipe), '\n') == ShareLines(recipe)
  {
    var lines := ShareLines(recipe);
    ShareJoin(recipe);
    ShareLinesWellSpaced(recipe);
    SignatureFrames();
    TidyFrameOfLines("*", recipe.recipeName + "*" + ShareBody(recipe), ShareSignature, lines);
    SplitJoin(lines, '\n');
  }

  // The e-mail body, line by line

  /** The greeting, the middle and the signature, regrouped as lines. */
  lemma {:induction false} EmailCore(greeting: string, lead: string, n: string, desc: string, rule: string,
                                     t1: string, t2: string, closing: string,
                                     j1: string, j2: string, signature: string)
    ensures greeting
            + ("\n\n" + lead + n + ":\n\n" + desc
               + "\n\n" + rule + "\n" + t1 + "\n" + rule + "\n" + j1
               + "\n\n" + rule + "\n" + t2 + "\n" + rule + "\n" + j2
               + "\n\n" + closing + "\n")
            + signature
         == (greeting + "\n" + "" + "\n" + (lead + n + ":") + "\n" + "" + "\n" + desc)
            + "\n" + ("" + "\n" + rule + "\n" + t1 + "\n" + rule)
            + "\n" + j1
            + "\n" + ("" + "\n" + rule + "\n" + t2 + "\n" + rule)
            + "\n" + j2
            + "\n" + ("" + "\n" + closing + "\n" + signature)
  {
    var a := "\n\n" + lead + n + ":\n\n" + desc;
    var b := "\n\n" + rule + "\n" + t1 + "\n" + rule + "\n";
    var c := "\n\n" + rule + "\n" + t2 + "\n" + rule + "\n";
    var d := "\n\n" + closing + "\n";
    var p := greeting + "\n" + "" + "\n" + (lead + n + ":") + "\n" + "" + "\n" + desc;
    var r1 := "" + "\n" + rule + "\n" + t1 + "\n" + rule;
    var r2 := "" + "\n" + rule + "\n" + t2 + "\n" + rule;
    var r3 := "" + "\n" + closing + "\n" + signature;
    MiddleParts(lead, n, desc, rule, t1, t2, closing, j1, j2);
    Regroup6(greeting, a, b, c, d, j1, j2, signature);
    IntroLines(greeting, lead, n, desc);
    RuleLines(rule, t1);
    RuleLines(rule, t2);
    ClosingLines(closing, signature);
    Regroup7(p, r1, r2, r3, j1, j2);
  }

  lemma {:induction false} MiddleParts(lead: string, n: string, desc: string, rule: string,
                                       t1: string, t2: string, closing: string, j1: string, j2: string)
    ensures "\n\n" + lead + n + ":\n\n" + desc
               + "\n\n" + rule + "\n" + t1 + "\n" + rule + "\n" + j1
               + "\n\n" + rule + "\n" + t2 + "\n" + rule + "\n" + j2
               + "\n\n" + closing + "\n"
      == ("\n\n" + lead + n + ":\n\n" + desc) + ("\n\n" + rule + "\n" + t1 + "\n" + rule + "\n") + j1
         + ("\n\n" + rule + "\n" + t2 + "\n" + rule + "\n") + j2 + ("\n\n" + closing + "\n")
  {
  }

  lemma {:induction false} IntroLines(greeting: string, lead: string, n: string, desc: string)
    ensures greeting + "\n" + "" + "\n" + (lead + n + ":") + "\n" + "" + "\n" + desc
         == greeting + ("\n\n" + lead + n + ":\n\n" + desc)
  {
    assert "\n" + "" + "\n" == "\n\n";
    assert ":" + "\n" + "" + "\n" == ":\n\n";
  }

  lemma {:induction false} RuleLines(rule: string, title: string)
    ensures "\n" + ("" + "\n" + rule + "\n" + title + "\n" + rule) + "\n"
         == "\n\n" + rule + "\n" + title + "\n" + rule + "\n"
  {
    assert "\n" + "" + "\n" == "\n\n";
  }

  lemma {:induction false} ClosingLines(closing: string, signature: string)
    ensures "\n" + ("" + "\n" + closing + "\n" + signature) == "\n\n" + closing + "\n" + signature
  {
    assert "\n" + "" + "\n" == "\n\n";
  }

  lemma {:induction false} Regroup6(g: string, a: string, b: string, c: string, d: string, j1: string, j2: string, sig: string)
    ensures g + (a + b + j1 + c + j2 + d) + sig == (g + a) + b + j1 + c + j2 + (d + sig)
  {
  }

  lemma {:induction false} Regroup7(p: string, r1: string, r2: string, r3: string, j1: string, j2: string)
    ensures p + "\n" + r1 + "\n" + j1 + "\n" + r2 + "\n" + j2 + "\n" + r3
         == p + ("\n" + r1 + "\n") + j1 + ("\n" + r2 + "\n") + j2 + ("\n" + r3)
  {
  }

  /** The e-mail template between the opening and closing whitespace is the
      join of the e-mail lines. */
  lemma {:induction false} EmailJoin(recipe: Recipe)
    requires |recipe.ingredients| > 0 && |recipe.instructions| > 0
    ensures Join(EmailLines(recipe), "\n") == EmailGreeting + EmailMiddle(recipe) + EmailSignature
  {
    var n := recipe.recipeName;
    var desc := recipe.description;
    var il := IngredientLines(recipe.ingredients, Dot);
    var nl := InstructionLines(recipe.instructions);
    var intro := IntroLead + n + ":";
    var first := [EmailGreeting, "", intro, "", desc];
    JoinAppend(first, RuleBlock(IngredientsTitle), "\n");
    JoinBlocks(first + RuleBlock(IngredientsTitle), il, RuleBlock(InstructionsTitle), nl,
               ["", Closing, EmailSignature]);
    JoinFive(EmailGreeting, "", intro, "", desc);
    JoinFour("", Rule, IngredientsTitle, Rule);
    JoinFour("", Rule, InstructionsTitle, Rule);
    JoinThree("", Closing, EmailSignature);
    EmailCore(EmailGreeting, IntroLead, n, desc, Rule, IngredientsTitle, InstructionsTitle, Closing,
              Join(il, "\n"), Join(nl, "\n"), EmailSignature);
  }

  /** For a recipe of single-line fields, the e-mail body is exactly its lines
      joined by line breaks: the greeting, the introduction naming the recipe,
      the description, the ingredients between two rules and their bullet lines,
      the instructions between two rules and their numbered steps, the closing
      "Enjoy!" and the signature, with one empty line between the sections. */
  lemma {:induction false} EmailBodyLines(recipe: Recipe)
    requires LineShaped(recipe)
    ensures EmailBody(recipe) == Join(EmailLines(recipe), "\n")
    ensures Split(EmailBody(recipe), '\n') == EmailLines(recipe)
  {
    var lines := EmailLines(recipe);
    EmailJoin(recipe);
    EmailLinesWellSpaced(recipe);
    SignatureFrames();
    TidyFrameOfLines(EmailGreeting, EmailMiddle(recipe), EmailSignature, lines);
    SplitJoin(lines, '\n');
  }
}
