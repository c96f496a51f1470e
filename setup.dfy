/**
  The keyword registry upsert and the entry of the setup wizard of
  modules/setup.py.
 */
module Setup {
  import opened Session

  // ---------------------------------------------------------------------
  // run_setup_flow: step normalisation and redirect
  // ---------------------------------------------------------------------

  /** What run_setup_flow goes on to do once the step is settled. */
  datatype FlowAction =
    | Redirect              // st.rerun() towards the main app, no step shown
    | ShowStep(step: int)   // the progress bar and the page of that step

  predicate IsWizardStep(e: StepEntry) {
    e.Step? && 1 <= e.value <= 4
  }

  /** The step after lines 127-131: kept when it is one of 1..4, otherwise 1. */
  function NormalisedStep(e: StepEntry): (n: int)
    ensures 1 <= n <= 4
    ensures IsWizardStep(e) <==> e.Step? && n == e.value
    ensures !IsWizardStep(e) ==> n == 1
  {
    if IsWizardStep(e) then e.value else 1
  }

  /** Lines 134-138: a completed setup redirects unless step 4 was asked for. */
  function FlowActionFor(setupComplete: bool, step: int): (a: FlowAction)
    ensures a == Redirect <==> setupComplete && step != 4
    ensures a.ShowStep? ==> a.step == step
  {
    if setupComplete && step != 4 then Redirect else ShowStep(step)
  }

  /**
    The top of run_setup_flow: stores the normalised step, then either
    redirects or shows that step.
   */
  method RunSetupFlow(s: State) returns (action: FlowAction)
    modifies s
    ensures s.setupStep == Step(NormalisedStep(old(s.setupStep)))
    ensures s.setupComplete == old(s.setupComplete) && s.selectedKeywords == old(s.selectedKeywords)
    ensures action == FlowActionFor(s.setupComplete, NormalisedStep(old(s.setupStep)))
  {
    if s.setupStep.Unset? {
      s.setupStep := Step(1);
    } else if !(s.setupStep.Step? && s.setupStep.value in [1, 2, 3, 4]) {
      s.setupStep := Step(1);
    }
    if s.setupComplete && s.setupStep != Step(4) {
      return Redirect;
    }
    action := ShowStep(s.setupStep.value);
  }

  // ---------------------------------------------------------------------
  // save_keywords: INSERT OR REPLACE into the keywords table
  // ---------------------------------------------------------------------

  /** The non-key columns of a row of the `keywords` table. */
  datatype KeywordRecord = KeywordRecord(importedAt: int, criteria: string)

  type KeywordKey = (string, string)

  /** Index of the last occurrence of k in keywords. */
  function LastIndex(keywords: seq<string>, k: string): (i: int)
    ensures k in keywords ==> 0 <= i < |keywords| && keywords[i] == k
    ensures k in keywords ==> forall j :: i < j < |keywords| ==> keywords[j] != k
    ensures k !in keywords ==> i == -1
  {
    if |keywords| == 0 then -1
    else if keywords[|keywords| - 1] == k then |keywords| - 1
    else LastIndex(keywords[..|keywords| - 1], k)
  }

  /**
    The table after the loop of lines 75-79: keyword i of the call is
    written at key (keyword, domain) with the time `clock(i)` and the
    criteria text computed once for the call.
   */
  function SaveAll(table: map<KeywordKey, KeywordRecord>, keywords: seq<string>, domain: string,
                   criteria: string, clock: nat -> int): (t: map<KeywordKey, KeywordRecord>)
  {
    if |keywords| == 0 then table
    else
      var n := |keywords| - 1;
      SaveAll(table, keywords[..n], domain, criteria, clock)[(keywords[n], domain) := KeywordRecord(clock(n), criteria)]
  }

  class KeywordTable {
    /** The rows of the `keywords` table by PRIMARY KEY (keyword, domain). */
    var rows: map<KeywordKey, KeywordRecord>

    constructor ()
      ensures rows == map[]
    {
      rows := map[];
    }

    /** save_keywords: one INSERT OR REPLACE per keyword, in list order. */
    method SaveKeywords(keywords: seq<string>, domain: string, criteria: string, clock: nat -> int)
      modifies this
      ensures rows == SaveAll(old(rows), keywords, domain, criteria, clock)
    {
      ghost var table := rows;
      for i := 0 to |keywords|
        invariant rows == SaveAll(table, keywords[..i], domain, criteria, clock)
      {
        assert keywords[..i + 1][..i] == keywords[..i];
        rows := rows[(keywords[i], domain) := KeywordRecord(clock(i), criteria)];
      }
      assert keywords[..|keywords|] == keywords;
    }
  }

  /** The keys after saving: the old keys plus (keyword, domain) for each keyword of the list. */
  lemma {:induction false} SaveAllKeys(table: map<KeywordKey, KeywordRecord>, keywords: seq<string>, domain: string,
                                       criteria: string, clock: nat -> int)
    ensures SaveAll(table, keywords, domain, criteria, clock).Keys
         == table.Keys + set k | k in keywords :: (k, domain)
  {
    if |keywords| > 0 {
      var n := |keywords| - 1;
      var init := keywords[..n];
      SaveAllKeys(table, init, domain, criteria, clock);
      assert keywords == init + [keywords[n]];
      assert (set k | k in keywords :: (k, domain)) == (set k | k in init :: (k, domain)) + {(keywords[n], domain)};
    }
  }

  /**
    Every saved row carries the call's criteria and the time of the
    keyword's last occurrence in the list: a later write replaces an
    earlier one instead of adding a row.
   */
  lemma {:induction false} SaveAllSaved(table: map<KeywordKey, KeywordRecord>, keywords: seq<string>, domain: string,
                                        criteria: string, clock: nat -> int, k: string)
    requires k in keywords
    ensures (k, domain) in SaveAll(table, keywords, domain, criteria, clock)
    ensures SaveAll(table, keywords, domain, criteria, clock)[(k, domain)]
         == KeywordRecord(clock(LastIndex(keywords, k)), criteria)
  {
    var n := |keywords| - 1;
    if k != keywords[n] {
      var init := keywords[..n];
      assert keywords == init + [keywords[n]];
      assert k in init;
      SaveAllSaved(table, init, domain, criteria, clock, k);
    }
  }

  /** Rows of other domains, and of keywords not in the list, are left unchanged. */
  lemma {:induction false} SaveAllUntouched(table: map<KeywordKey, KeywordRecord>, keywords: seq<string>, domain: string,
                                            criteria: string, clock: nat -> int, key: KeywordKey)
    requires key in table && (key.1 != domain || key.0 !in keywords)
    ensures key in SaveAll(table, keywords, domain, criteria, clock)
    ensures SaveAll(table, keywords, domain, criteria, clock)[key] == table[key]
  {
    if |keywords| > 0 {
      var n := |keywords| - 1;
      var init := keywords[..n];
      assert keywords == init + [keywords[n]];
      SaveAllUntouched(table, init, domain, criteria, clock, key);
    }
  }

  /** Saving the same list again adds no key: the key set after two saves is the one after the first. */
  lemma SaveTwiceSameKeys(table: map<KeywordKey, KeywordRecord>, keywords: seq<string>, domain: string,
                          criteria: string, clock1: nat -> int, clock2: nat -> int)
    ensures SaveAll(SaveAll(table, keywords, domain, criteria, clock1), keywords, domain, criteria, clock2).Keys
         == SaveAll(table, keywords, domain, criteria, clock1).Keys
  {
    SaveAllKeys(table, keywords, domain, criteria, clock1);
    SaveAllKeys(SaveAll(table, keywords, domain, criteria, clock1), keywords, domain, criteria, clock2);
  }
}
