/**
  The keyword search filter, the select-all update and the top-level
  routing of app.py.
 */
module App {
  import opened Wrappers
  import opened Seqs
  import opened Session
  import Setup

  // ---------------------------------------------------------------------
  // filter_keywords
  // ---------------------------------------------------------------------

  /** `c.lower()` on ASCII letters; other characters are kept. */
  function LowerChar(c: char): char {
    if 'A' <= c <= 'Z' then (c as int + 32) as char else c
  }

  /**
    `s.lower()`: no upper-case ASCII letter is left, and each character is
    either kept or is an upper-case letter replaced by its lower-case one.
   */
  function Lower(s: string): (r: string)
    ensures |r| == |s|
    ensures forall i :: 0 <= i < |r| ==> !('A' <= r[i] <= 'Z')
    ensures forall i :: 0 <= i < |s| ==>
      r[i] == s[i] || ('A' <= s[i] <= 'Z' && r[i] as int == s[i] as int + 32)
  {
    seq(|s|, i requires 0 <= i < |s| => LowerChar(s[i]))
  }

  /** Two texts that differ only in the case of ASCII letters. */
  predicate SameUpToCase(t1: string, t2: string) {
    && |t1| == |t2|
    && forall i :: 0 <= i < |t1| ==>
      || t1[i] == t2[i]
      || ('A' <= t1[i] <= 'Z' && t2[i] as int == t1[i] as int + 32)
      || ('A' <= t2[i] <= 'Z' && t1[i] as int == t2[i] as int + 32)
  }

  /** Lower-casing identifies exactly the texts that differ only in case. */
  lemma LowerSameUpToCase(t1: string, t2: string)
    ensures Lower(t1) == Lower(t2) <==> SameUpToCase(t1, t2)
  {
    if SameUpToCase(t1, t2) {
      assert forall i :: 0 <= i < |t1| ==> Lower(t1)[i] == Lower(t2)[i];
    }
    if Lower(t1) == Lower(t2) {
      assert forall i :: 0 <= i < |t1| ==> LowerChar(t1[i]) == LowerChar(t2[i]);
    }
  }

  /** Lower-casing twice is lower-casing once. */
  lemma LowerIdempotent(s: string)
    ensures Lower(Lower(s)) == Lower(s)
  {
    assert forall i :: 0 <= i < |s| ==> LowerChar(LowerChar(s[i])) == LowerChar(s[i]);
  }

  /** `sub in s`: sub occurs in s at the front or further on. */
  predicate Contains(s: string, sub: string)
    decreases |s|
  {
    (|sub| <= |s| && s[..|sub|] == sub) || (|s| > 0 && Contains(s[1..], sub))
  }

  /** The comprehension's test for one keyword. */
  function MatchesTerm(term: string): string -> bool {
    kw => Contains(Lower(kw), Lower(term))
  }

  /** filter_keywords: None and the empty term keep every keyword. */
  function FilterKeywords(keywords: seq<string>, searchTerm: Option<string>): (r: seq<string>)
    ensures searchTerm.None? || searchTerm.value == [] ==> r == keywords
  {
    if searchTerm.None? || searchTerm.value == [] then keywords
    else Filter(keywords, MatchesTerm(searchTerm.value))
  }

  /** sub occurs in s starting at position i. */
  predicate OccursAt(s: string, sub: string, i: int) {
    0 <= i <= |s| - |sub| && s[i..i + |sub|] == sub
  }

  /** `Contains` agrees with the definition by position: sub is a slice of s. */
  lemma {:induction false} ContainsAt(s: string, sub: string)
    ensures Contains(s, sub) <==> exists i :: OccursAt(s, sub, i)
    decreases |s|
  {
    if |sub| <= |s| && s[..|sub|] == sub {
      assert OccursAt(s, sub, 0);
    }
    if |s| > 0 {
      ContainsAt(s[1..], sub);
      if Contains(s[1..], sub) {
        var i :| OccursAt(s[1..], sub, i);
        assert s[i + 1..i + 1 + |sub|] == s[1..][i..i + |sub|];
        assert OccursAt(s, sub, i + 1);
      }
      if exists i :: OccursAt(s, sub, i) {
        var i :| OccursAt(s, sub, i);
        if i > 0 {
          assert s[1..][i - 1..i - 1 + |sub|] == s[i..i + |sub|];
          assert OccursAt(s[1..], sub, i - 1);
        }
      }
    }
  }

  /**
    With a non-empty term, a keyword is kept exactly when it is in the
    list and its lower-cased text has the lower-cased term at some position.
   */
  lemma FilterKeywordsMembership(keywords: seq<string>, term: string, kw: string)
    requires term != []
    ensures kw in FilterKeywords(keywords, Some(term)) <==>
      kw in keywords && exists i :: OccursAt(Lower(kw), Lower(term), i)
  {
    FilterMembership(keywords, MatchesTerm(term), kw);
    ContainsAt(Lower(kw), Lower(term));
  }

  /** The filter is case-insensitive in the term: terms that differ only in case filter alike. */
  lemma FilterKeywordsCaseInsensitive(keywords: seq<string>, t1: string, t2: string)
    requires SameUpToCase(t1, t2)
    ensures FilterKeywords(keywords, Some(t1)) == FilterKeywords(keywords, Some(t2))
  {
    LowerSameUpToCase(t1, t2);
    if t1 != [] && t2 != [] {
      FilterCongruent(keywords, MatchesTerm(t1), MatchesTerm(t2));
    }
  }

  /** The filter is case-insensitive in the keywords: two listed keywords that differ only in case are kept or dropped together. */
  lemma FilterKeywordsKeywordCase(keywords: seq<string>, term: string, k1: string, k2: string)
    requires k1 in keywords && k2 in keywords && SameUpToCase(k1, k2)
    ensures k1 in FilterKeywords(keywords, Some(term)) <==> k2 in FilterKeywords(keywords, Some(term))
  {
    if term != [] {
      LowerSameUpToCase(k1, k2);
      FilterMembership(keywords, MatchesTerm(term), k1);
      FilterMembership(keywords, MatchesTerm(term), k2);
    }
  }

  /** Filtering the result again with the same term changes nothing. */
  lemma FilterKeywordsIdempotent(keywords: seq<string>, searchTerm: Option<string>)
    ensures FilterKeywords(FilterKeywords(keywords, searchTerm), searchTerm) == FilterKeywords(keywords, searchTerm)
  {
    if searchTerm.Some? && searchTerm.value != [] {
      FilterIdempotent(keywords, MatchesTerm(searchTerm.value));
    }
  }

  // ---------------------------------------------------------------------
  // The select-all update in main_app
  // ---------------------------------------------------------------------

  function Elements(s: seq<string>): set<string> {
    set x | x in s
  }

  /**
    Lines 206-210 on the selection (an empty set when absent): a checked
    box selects the filtered keywords; an unchecked one clears a selection
    of as many keywords as the list holds when all of them are selected.
   */
  function SelectionAfter(selected: set<string>, filtered: seq<string>, selectAll: bool): set<string> {
    if selectAll then Elements(filtered)
    else if |selected| == |filtered| && (forall i :: 0 <= i < |filtered| ==> filtered[i] in selected) then {}
    else selected
  }

  /** A list without repeats has as many elements as its set. */
  lemma {:induction false} DistinctCardinality(s: seq<string>)
    requires NoDuplicates(s)
    ensures |Elements(s)| == |s|
  {
    if |s| > 0 {
      var init, x := s[..|s| - 1], s[|s| - 1];
      assert s == init + [x];
      assert NoDuplicates(init);
      DistinctCardinality(init);
      assert x !in init;
      assert Elements(s) == Elements(init) + {x};
    }
  }

  /**
    Checking select-all selects exactly the filtered keywords. With the box
    unchecked and a list without repeats (the keywords come from SELECT
    DISTINCT), the selection is cleared exactly when it equals the set of
    filtered keywords, and otherwise kept.
   */
  lemma SelectionAfterMeaning(selected: set<string>, filtered: seq<string>, selectAll: bool)
    requires NoDuplicates(filtered)
    ensures selectAll ==> SelectionAfter(selected, filtered, true) == Elements(filtered)
    ensures !selectAll ==>
      SelectionAfter(selected, filtered, false) == (if selected == Elements(filtered) then {} else selected)
  {
    DistinctCardinality(filtered);
    var all := forall i :: 0 <= i < |filtered| ==> filtered[i] in selected;
    if all && |selected| == |filtered| {
      assert Elements(filtered) <= selected;
      SubsetSameSize(Elements(filtered), selected);
    }
  }

  lemma SubsetSameSize(a: set<string>, b: set<string>)
    requires a <= b && |a| == |b|
    ensures a == b
  {
    assert b == a + (b - a);
    assert a * (b - a) == {};
    assert |b - a| == 0;
  }

  /**
    Lines 202-210 on the session state. They run only when the filter left
    some keywords (lines 195-197 show a message instead), hence the requires.
   */
  method ApplySelectAll(s: State, filtered: seq<string>, selectAll: bool)
    requires |filtered| > 0
    modifies s
    ensures s.selectedKeywords == Some(SelectionAfter(old(if s.selectedKeywords.Some? then s.selectedKeywords.value else {}),
                                                      filtered, selectAll))
    ensures s.setupComplete == old(s.setupComplete) && s.setupStep == old(s.setupStep)
  {
    if s.selectedKeywords.None? {
      s.selectedKeywords := Some({});
    }
    if selectAll {
      s.selectedKeywords := Some(Elements(filtered));
    } else if |s.selectedKeywords.value| == |filtered| {
      if forall i :: 0 <= i < |filtered| ==> filtered[i] in s.selectedKeywords.value {
        s.selectedKeywords := Some({});
      }
    }
  }

  // ---------------------------------------------------------------------
  // main
  // ---------------------------------------------------------------------

  datatype Target = MainApp | SetupFlow

  /** The four priorities of main (lines 382-405); `firstRun` is is_first_run(). */
  function RouteFor(setupComplete: bool, step: StepEntry, firstRun: bool): (t: Target)
    ensures t == SetupFlow <==> !setupComplete && (step == Step(4) || firstRun)
    ensures setupComplete ==> t == MainApp
  {
    if setupComplete then MainApp
    else if step == Step(4) then SetupFlow
    else if firstRun then SetupFlow
    else MainApp
  }

  /** The `setup_step` entry after main and whatever setup flow it ran. */
  function StepAfterRoute(setupComplete: bool, step: StepEntry, firstRun: bool): StepEntry {
    match RouteFor(setupComplete, step, firstRun)
    case MainApp => Unset
    case SetupFlow => Step(Setup.NormalisedStep(step))
  }

  /** What a run of main ends up showing. */
  datatype Screen = MainScreen | SetupScreen(action: Setup.FlowAction)

  /**
    The setup flow is reached from main only while setup is not complete,
    so it never redirects: main shows the main app or a wizard step.
   */
  lemma RouteNeverRedirects(setupComplete: bool, step: StepEntry, firstRun: bool)
    ensures RouteFor(setupComplete, step, firstRun) == SetupFlow ==>
      !setupComplete && Setup.FlowActionFor(setupComplete, Setup.NormalisedStep(step)) == Setup.ShowStep(Setup.NormalisedStep(step))
  {
  }

  /**
    Routing is stable: running main again on the state it leaves (same
    completion flag and first-run answer) takes the same route and leaves
    the same step.
   */
  lemma RouteStable(setupComplete: bool, step: StepEntry, firstRun: bool)
    ensures var step' := StepAfterRoute(setupComplete, step, firstRun);
      && RouteFor(setupComplete, step', firstRun) == RouteFor(setupComplete, step, firstRun)
      && StepAfterRoute(setupComplete, step', firstRun) == step'
  {
  }

  /** main: routes, clearing `setup_step` on the way to the main app. */
  method Route(s: State, firstRun: bool) returns (screen: Screen)
    modifies s
    ensures s.setupStep == StepAfterRoute(old(s.setupComplete), old(s.setupStep), firstRun)
    ensures s.setupComplete == old(s.setupComplete) && s.selectedKeywords == old(s.selectedKeywords)
    ensures RouteFor(old(s.setupComplete), old(s.setupStep), firstRun) == MainApp ==> screen == MainScreen
    ensures RouteFor(old(s.setupComplete), old(s.setupStep), firstRun) == SetupFlow ==>
      screen == SetupScreen(Setup.ShowStep(Setup.NormalisedStep(old(s.setupStep))))
  {
    if s.setupComplete {
      s.setupStep := Unset;
      return MainScreen;
    }
    if s.setupStep == Step(4) {
      var action := Setup.RunSetupFlow(s);
      return SetupScreen(action);
    }
    if firstRun {
      var action := Setup.RunSetupFlow(s);
      return SetupScreen(action);
    }
    s.setupStep := Unset;
    screen := MainScreen;
  }
}
