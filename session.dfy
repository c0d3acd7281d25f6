/** The Streamlit session state the core reads and writes, as one object:
    each key is a field, and a key that is absent is None or false. */
module Session {
  import opened Wrappers

  /** The values of the session keys at one moment. */
  datatype Snapshot = Snapshot(
    currentBookId: Option<int>,
    pendingQuestion: Option<string>,
    chatLoading: bool,
    generateSummary: bool,
    libraryPage: nat,
    confirmDelete: set<int>,
    confirmSettingsDelete: bool,
    uploadProcessed: bool,
    currentPage: string)

  class SessionState {
    /** current_book_id; None until a book is opened. */
    var currentBookId: Option<int>
    /** pending_question; None when the key is absent. */
    var pendingQuestion: Option<string>
    /** chat_loading (absent reads as False). */
    var chatLoading: bool
    /** generate_summary: present and truthy. */
    var generateSummary: bool
    /** library_page. */
    var libraryPage: nat
    /** The book ids whose confirm_delete_{id} key is set. */
    var confirmDelete: set<int>
    /** confirm_settings_delete. */
    var confirmSettingsDelete: bool
    /** upload_processed. */
    var uploadProcessed: bool
    /** current_page. */
    var currentPage: string

    function Snap(): Snapshot
      reads this
    {
      Snapshot(currentBookId, pendingQuestion, chatLoading, generateSummary, libraryPage,
               confirmDelete, confirmSettingsDelete, uploadProcessed, currentPage)
    }

    /** `hasattr(st.session_state, 'pending_question') and st.session_state.pending_question`. */
    predicate ChatRequested()
      reads this
    {
      pendingQuestion.Some? && pendingQuestion.value != ""
    }

    /** `if book_id:` on current_book_id (None and 0 are false). */
    predicate BookSelected()
      reads this
    {
      currentBookId.Some? && currentBookId.value != 0
    }

    /** init_session_state on a new session. library_page is created on the
        first visit of the library with the same value 0, and the keys the
        core tests with a default start absent. */
    constructor ()
      ensures Snap() == Snapshot(None, None, false, false, 0, {}, false, false, "home")
    {
      currentBookId, pendingQuestion, chatLoading, generateSummary := None, None, false, false;
      libraryPage, confirmDelete, confirmSettingsDelete := 0, {}, false;
      uploadProcessed, currentPage := false, "home";
    }

    /** render_chat_input: with a book open and no question in flight, a
        non-empty prompt becomes the pending question and disables the input
        until it is answered. Without a book, or while loading, nothing changes. */
    method SubmitQuestion(prompt: Option<string>)
      modifies this
      ensures var accepted := old(currentBookId).Some? && prompt.Some? && prompt.value != "" && !old(chatLoading);
        Snap() == if accepted then old(Snap()).(chatLoading := true, pendingQuestion := prompt) else old(Snap())
      ensures ChatRequested() <==> old(ChatRequested()) || (old(currentBookId).Some? && prompt.Some? && prompt.value != "" && !old(chatLoading))
    {
      if currentBookId.None? {
        return;
      }
      var disabled := chatLoading;
      if prompt.Some? && prompt.value != "" && !disabled {
        chatLoading := true;
        pendingQuestion := prompt;
      }
    }
  }
}
