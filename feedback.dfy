/**
 * The keyword rule matcher and feedback generator: every task's prompt is
 * scored against each rule by counting the rule's keywords that occur in the
 * lower-cased prompt, the first rule with the highest positive score wins,
 * and one of its feedback templates (or, failing that, one of four generic
 * clarification questions) is attached to the task.
 */
module Feedback {
  import opened Wrappers
  import opened Json
  import opened Text

  /** A rule as loaded from the rules file. */
  datatype Rule = Rule(keywords: seq<string>, feedback: seq<string>)

  // ---------------------------------------------------------------------------
  // Scoring

  /**
   * The number of entries of `keywords` whose lower-cased form occurs in the
   * (already lower-cased) prompt `lp`. Every entry is counted, duplicates too.
   */
  function Hits(lp: string, keywords: seq<string>): (n: nat)
    ensures n <= |keywords|
  {
    if keywords == [] then 0
    else
      var last := keywords[|keywords| - 1];
      Hits(lp, keywords[..|keywords| - 1]) + (if Contains(lp, Lower(last)) then 1 else 0)
  }

  /** A rule's score against the lower-cased prompt `lp`. */
  function Score(lp: string, rule: Rule): (s: nat)
    ensures s <= |rule.keywords|
  {
    Hits(lp, rule.keywords)
  }

  /** The positions of `keywords` whose entry counts towards the score. */
  ghost function MatchingPositions(lp: string, keywords: seq<string>): set<nat>
  {
    set i: nat | i < |keywords| && Contains(lp, Lower(keywords[i]))
  }

  /** The score is the number of keyword positions that match. */
  lemma {:induction false} HitsCountsPositions(lp: string, keywords: seq<string>)
    ensures Hits(lp, keywords) == |MatchingPositions(lp, keywords)|
    decreases |keywords|
  {
    if keywords == [] {
      assert MatchingPositions(lp, keywords) == {};
    } else {
      var n := |keywords| - 1;
      HitsCountsPositions(lp, keywords[..n]);
      MatchingPositionsSnoc(lp, keywords);
    }
  }

  /** The matching positions of a non-empty list: those of its front, plus the last position if it matches. */
  lemma MatchingPositionsSnoc(lp: string, keywords: seq<string>)
    requires keywords != []
    ensures var n := |keywords| - 1;
            MatchingPositions(lp, keywords) ==
            MatchingPositions(lp, keywords[..n]) + (if Contains(lp, Lower(keywords[n])) then {n} else {})
  {
  }

  /** The score is 0 exactly when no keyword matches, and is the keyword count exactly when all match. */
  lemma {:induction false} HitsExtremes(lp: string, keywords: seq<string>)
    ensures Hits(lp, keywords) == 0 <==> forall i :: 0 <= i < |keywords| ==> !Contains(lp, Lower(keywords[i]))
    ensures Hits(lp, keywords) == |keywords| <==> forall i :: 0 <= i < |keywords| ==> Contains(lp, Lower(keywords[i]))
    decreases |keywords|
  {
    if keywords != [] {
      var n := |keywords| - 1;
      var front := keywords[..n];
      HitsExtremes(lp, front);
      assert forall i :: 0 <= i < n ==> front[i] == keywords[i];
    }
  }

  /** Scores add up over concatenated keyword lists. */
  lemma {:induction false} HitsAppend(lp: string, a: seq<string>, b: seq<string>)
    ensures Hits(lp, a + b) == Hits(lp, a) + Hits(lp, b)
    decreases |b|
  {
    if b == [] {
      assert a + b == a;
    } else {
      var n := |b| - 1;
      assert (a + b)[..|a + b| - 1] == a + b[..n];
      assert (a + b)[|a + b| - 1] == b[n];
      HitsAppend(lp, a, b[..n]);
    }
  }

  /** A duplicated keyword that matches counts twice. */
  lemma DuplicateKeywordCountsTwice(lp: string, keywords: seq<string>, kw: string)
    requires Contains(lp, Lower(kw))
    ensures Hits(lp, keywords + [kw, kw]) == Hits(lp, keywords) + 2
  {
    HitsAppend(lp, keywords, [kw, kw]);
    assert [kw, kw][..1] == [kw];
    assert [kw][..0] == [];
  }

  /** An empty keyword matches every prompt, so it always adds one to the score. */
  lemma EmptyKeywordAlwaysCounts(lp: string, keywords: seq<string>)
    ensures Hits(lp, keywords + [""]) == Hits(lp, keywords) + 1
  {
  }

  // ---------------------------------------------------------------------------
  // The winning rule

  /** No rule scores above zero (this includes an empty rule list). */
  ghost predicate AllZero(lp: string, rules: seq<Rule>)
  {
    forall j :: 0 <= j < |rules| ==> Score(lp, rules[j]) == 0
  }

  /**
   * Rule `i` wins: it scores above zero, no rule scores more, and every rule
   * before it scores strictly less (the earliest maximal rule wins ties).
   */
  ghost predicate IsWinner(lp: string, rules: seq<Rule>, i: int)
  {
    && 0 <= i < |rules|
    && Score(lp, rules[i]) > 0
    && (forall j :: 0 <= j < |rules| ==> Score(lp, rules[j]) <= Score(lp, rules[i]))
    && (forall j :: 0 <= j < i ==> Score(lp, rules[j]) < Score(lp, rules[i]))
  }

  /**
   * Reference definition of the winning rule's index, built from the back of
   * the list: the head wins when it scores above zero and at least as much as
   * the winner of the rest.
   */
  function Winner(lp: string, rules: seq<Rule>): (w: Option<nat>)
    ensures w.None? <==> AllZero(lp, rules)
    ensures w.Some? ==> IsWinner(lp, rules, w.value)
  {
    if rules == [] then None
    else
      var s := Score(lp, rules[0]);
      var rest := rules[1..];
      assert forall j :: 1 <= j < |rules| ==> rules[j] == rest[j - 1];
      match Winner(lp, rest)
      case None =>
        if s > 0 then Some(0) else None
      case Some(k) =>
        if s >= Score(lp, rest[k]) then Some(0) else Some(k + 1)
  }

  /** The winner is unique: any rule satisfying the winning condition is the one `Winner` names. */
  lemma WinnerUnique(lp: string, rules: seq<Rule>, i: int)
    requires IsWinner(lp, rules, i)
    ensures Winner(lp, rules) == Some(i)
  {
  }

  /** The feedback templates of the winning rule, if there is one. */
  function WinningTemplates(lp: string, rules: seq<Rule>): (t: Option<seq<string>>)
    ensures t.None? <==> AllZero(lp, rules)
    ensures t.Some? ==> Winner(lp, rules).Some? && t.value == rules[Winner(lp, rules).value].feedback
  {
    match Winner(lp, rules)
    case None => None
    case Some(i) => Some(rules[i].feedback)
  }

  // ---------------------------------------------------------------------------
  // Random choice

  /**
   * `random.choice(options)`: some element of `options`, or an IndexError
   * when `options` is empty. Which element is picked is left open.
   */
  method Choice(options: seq<string>) returns (r: Result<string, Failure>)
    ensures r.Err? <==> options == []
    ensures r.Err? ==> r.error == IndexError
    ensures r.Ok? ==> r.value in options
  {
    if options == [] {
      r := Err(IndexError);
    } else {
      var k :| 0 <= k < |options|;
      r := Ok(options[k]);
    }
  }

  // ---------------------------------------------------------------------------
  // find_matching_rule

  /**
   * Scores every rule against the lower-cased prompt, keeps the first rule
   * with the highest positive score, and picks one of its templates.
   * `Ok(None)` stands for Python's `None` (no rule scored above zero).
   */
  method FindMatchingRule(prompt: string, rules: seq<Rule>) returns (r: Result<Option<string>, Failure>)
    ensures WinningTemplates(Lower(prompt), rules).None? ==> r == Ok(None)
    ensures WinningTemplates(Lower(prompt), rules) == Some([]) ==> r == Err(IndexError)
    ensures WinningTemplates(Lower(prompt), rules).Some? && WinningTemplates(Lower(prompt), rules).value != [] ==>
              r.Ok? && r.value.Some? && r.value.value in WinningTemplates(Lower(prompt), rules).value
  {
    var p := Lower(prompt);
    var bestRule: Option<Rule> := None;
    var bestScore := 0;
    ghost var bestIndex := 0;
    for i := 0 to |rules|
      invariant bestRule.None? <==> bestScore == 0
      invariant bestRule.Some? ==> bestIndex < i && bestRule.value == rules[bestIndex]
      invariant bestRule.Some? ==> bestScore == Score(p, rules[bestIndex])
      invariant forall j :: 0 <= j < i ==> Score(p, rules[j]) <= bestScore
      invariant bestRule.Some? ==> forall j :: 0 <= j < bestIndex ==> Score(p, rules[j]) < bestScore
    {
      var score := Score(p, rules[i]);
      if score > bestScore {
        bestScore := score;
        bestRule := Some(rules[i]);
        bestIndex := i;
      }
    }
    if bestRule.Some? && bestScore > 0 {
      WinnerUnique(p, rules, bestIndex);
      var pick := Choice(bestRule.value.feedback);
      match pick
      case Ok(t) => r := Ok(Some(t));
      case Err(e) => r := Err(e);
    } else {
      r := Ok(None);
    }
  }

  // ---------------------------------------------------------------------------
  // generate_feedback

  /** The generic clarification questions used when no rule supplies a template. */
  const Fallback: seq<string> := [
    "Could you clarify how ambiguous or missing information should be handled in this task?",
    "Some details seem unspecified—how would you prefer the agent to address unclear values?",
    "Would you like to specify how edge cases or incomplete data should be managed?",
    "Should the agent make assumptions when the instructions are unclear, or ask for confirmation first?"
  ]

  /** Generating feedback for `prompt` raises: the winning rule has no templates. */
  ghost predicate Raises(prompt: string, rules: seq<Rule>)
  {
    WinningTemplates(Lower(prompt), rules) == Some([])
  }

  /**
   * `f` is a possible feedback for `prompt`: a non-empty template of the
   * winning rule, or a fallback question when there is no winner or the
   * winning rule's random pick can be the empty template.
   */
  ghost predicate MayReturn(prompt: string, rules: seq<Rule>, f: string)
  {
    match WinningTemplates(Lower(prompt), rules)
    case None => f in Fallback
    case Some(templates) =>
      || (f in templates && f != "")
      || ("" in templates && f in Fallback)
  }

  /**
   * Uses the matched template when it is a non-empty string and otherwise
   * picks one of the fallback questions.
   */
  method GenerateFeedback(prompt: string, rules: seq<Rule>) returns (r: Result<string, Failure>)
    ensures r.Err? <==> Raises(prompt, rules)
    ensures r.Err? ==> r.error == IndexError
    ensures r.Ok? ==> MayReturn(prompt, rules, r.value)
  {
    var matched := FindMatchingRule(prompt, rules);
    match matched
    case Err(e) =>
      r := Err(e);
    case Ok(template) =>
      if template.Some? && template.value != "" {
        r := Ok(template.value);
      } else {
        r := Choice(Fallback);
      }
  }

  /** Every possible feedback is a non-empty string. */
  lemma FeedbackNonEmpty(prompt: string, rules: seq<Rule>, f: string)
    requires MayReturn(prompt, rules, f)
    ensures f != ""
  {
  }

  /** Without a winning rule the feedback is exactly a fallback question. */
  lemma NoMatchGivesFallback(prompt: string, rules: seq<Rule>, f: string)
    requires AllZero(Lower(prompt), rules)
    ensures !Raises(prompt, rules)
    ensures MayReturn(prompt, rules, f) <==> f in Fallback
  {
  }

  /**
   * When the winning rule has templates and none of them is empty, the
   * feedback is exactly one of that rule's templates.
   */
  lemma MatchGivesRuleTemplate(prompt: string, rules: seq<Rule>, i: nat, f: string)
    requires IsWinner(Lower(prompt), rules, i)
    requires rules[i].feedback != [] && "" !in rules[i].feedback
    ensures !Raises(prompt, rules)
    ensures MayReturn(prompt, rules, f) <==> f in rules[i].feedback
  {
  }

  /** With an empty rule list every prompt gets a fallback question. */
  lemma NoRulesGivesFallback(prompt: string, f: string)
    ensures !Raises(prompt, [])
    ensures MayReturn(prompt, [], f) <==> f in Fallback
  {
  }

  /** An upper-case prompt word matches a lower-case keyword: "DEADLINE tomorrow" scores 1 against ["deadline"]. */
  lemma UpperCasePromptMatches(feedback: seq<string>)
    ensures Score(Lower("DEADLINE tomorrow"), Rule(["deadline"], feedback)) == 1
  {
  }

  /** A single matching rule with a single template: that template is the feedback. */
  lemma SingleRuleExample(f: string)
    ensures var rules := [Rule(["ambiguous"], ["Please clarify X"])];
            !Raises("This value is ambiguous", rules)
            && (MayReturn("This value is ambiguous", rules, f) <==> f == "Please clarify X")
  {
    var prompt := "This value is ambiguous";
    var rules := [Rule(["ambiguous"], ["Please clarify X"])];
    AmbiguousMatches();
    assert ["ambiguous"][..0] == [];
    assert IsWinner(Lower(prompt), rules, 0);
    MatchGivesRuleTemplate(prompt, rules, 0, f);
  }

  /** The keyword "ambiguous" occurs in the lower-cased prompt "This value is ambiguous". */
  lemma AmbiguousMatches()
    ensures Contains(Lower("This value is ambiguous"), Lower("ambiguous"))
  {
    var prompt := "This value is ambiguous";
    assert prompt[14..23] == "ambiguous";
    ContainsIgnoringCase(prompt, "ambiguous", 14);
  }

  /** Two rules that tie on the highest score: the earlier one wins. */
  lemma TieGoesToEarlierRule(lp: string, first: Rule, second: Rule)
    requires Score(lp, first) == Score(lp, second) > 0
    ensures Winner(lp, [first, second]) == Some(0)
  {
  }

  // ---------------------------------------------------------------------------
  // The per-task loop of main

  /** A task record: the loaded JSON value, which the loop updates in place. */
  class Task {
    var value: Value

    constructor (value: Value)
      ensures this.value == value
    {
      this.value := value;
    }
  }

  /**
   * `task["prompt"]` followed by `.lower()`: the task must be an object,
   * the prompt must be present and it must be a string.
   */
  function PromptOf(task: Value): (r: Result<string, Failure>)
    ensures !task.JObj? ==> r == Err(TypeError)
    ensures task.JObj? && "prompt" !in task.fields ==> r == Err(KeyError)
    ensures task.JObj? && "prompt" in task.fields && !task.fields["prompt"].JStr? ==> r == Err(AttributeError)
    ensures task.JObj? && "prompt" in task.fields && task.fields["prompt"].JStr? ==> r == Ok(task.fields["prompt"].s)
  {
    if !task.JObj? then Err(TypeError)
    else if "prompt" !in task.fields then Err(KeyError)
    else match task.fields["prompt"]
      case JStr(s) => Ok(s)
      case _ => Err(AttributeError)
  }

  /**
   * `after` is the object `before` with a `feedback` field set to a possible
   * feedback for the task's prompt, and with every other field unchanged.
   */
  ghost predicate Annotated(before: Value, after: Value, rules: seq<Rule>)
  {
    && PromptOf(before).Ok?
    && after.JObj?
    && "feedback" in after.fields
    && after.fields["feedback"].JStr?
    && after.fields == before.fields["feedback" := after.fields["feedback"]]
    && MayReturn(PromptOf(before).value, rules, after.fields["feedback"].s)
  }

  /** Processing this task raises `e`. */
  ghost predicate FailsWith(task: Value, rules: seq<Rule>, e: Failure)
  {
    match PromptOf(task)
    case Err(e') => e == e'
    case Ok(prompt) => Raises(prompt, rules) && e == IndexError
  }

  /**
   * One iteration of the loop: reads the task's prompt, generates feedback
   * and stores it in the task's `feedback` field. When it raises, the task
   * is left as it was.
   */
  method AnnotateTask(task: Task, rules: seq<Rule>) returns (r: Result<string, Failure>)
    modifies task
    ensures r.Ok? ==> Annotated(old(task.value), task.value, rules) && task.value.fields["feedback"] == JStr(r.value)
    ensures r.Err? ==> FailsWith(old(task.value), rules, r.error) && task.value == old(task.value)
  {
    var prompt := PromptOf(task.value);
    if prompt.Err? {
      return Err(prompt.error);
    }
    r := GenerateFeedback(prompt.value, rules);
    if r.Ok? {
      task.value := JObj(task.value.fields["feedback" := JStr(r.value)]);
    }
  }

  /**
   * Attaches feedback to every task, in order, and returns the same task
   * objects in the same order. When a task raises, the tasks before it have
   * already been updated and it and the later ones are untouched.
   */
  method AttachFeedback(tasks: seq<Task>, rules: seq<Rule>) returns (r: Result<seq<Task>, Failure>, ghost failed: nat)
    requires forall i, j :: 0 <= i < j < |tasks| ==> tasks[i] != tasks[j]
    modifies tasks
    ensures r.Ok? ==> r.value == tasks
    ensures r.Ok? ==> forall k :: 0 <= k < |tasks| ==> Annotated(old(tasks[k].value), tasks[k].value, rules)
    ensures r.Err? ==> failed < |tasks| && FailsWith(old(tasks[failed].value), rules, r.error)
    ensures r.Err? ==> forall k :: 0 <= k < failed ==> Annotated(old(tasks[k].value), tasks[k].value, rules)
    ensures r.Err? ==> forall k :: failed <= k < |tasks| ==> tasks[k].value == old(tasks[k].value)
  {
    ghost var before := seq(|tasks|, k requires 0 <= k < |tasks| reads tasks => tasks[k].value);
    var updated: seq<Task> := [];
    failed := 0;
    for i := 0 to |tasks|
      invariant updated == tasks[..i]
      invariant forall k :: 0 <= k < i ==> Annotated(before[k], tasks[k].value, rules)
      invariant forall k :: i <= k < |tasks| ==> tasks[k].value == before[k]
    {
      var task := tasks[i];
      var fb := AnnotateTask(task, rules);
      if fb.Err? {
        r, failed := Err(fb.error), i;
        return;
      }
      updated := updated + [task];
    }
    r := Ok(updated);
  }
}
