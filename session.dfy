/**
  The parts of Streamlit's `st.session_state` that the routing, the setup
  wizard and the keyword selection read and write.
 */
module Session {
  import opened Wrappers

  /** The `setup_step` entry: absent, an integer, or any other value (such as None). */
  datatype StepEntry = Unset | Step(value: int) | NonInteger

  class State {
    /** Whether `st.session_state.get('setup_complete') is True`. */
    var setupComplete: bool
    var setupStep: StepEntry
    /** `selected_keywords`, None while the entry is absent. */
    var selectedKeywords: Option<set<string>>

    constructor (setupComplete: bool, setupStep: StepEntry, selectedKeywords: Option<set<string>>)
      ensures this.setupComplete == setupComplete
      ensures this.setupStep == setupStep
      ensures this.selectedKeywords == selectedKeywords
    {
      this.setupComplete := setupComplete;
      this.setupStep := setupStep;
      this.selectedKeywords := selectedKeywords;
    }
  }
}
