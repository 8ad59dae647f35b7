/**
 * The application state of the terminal window (src/app/state.rs).
 *
 * The real state also holds the shared, mutex-guarded escape parser; the
 * parser is external and its locking is concurrency plumbing, so the model
 * keeps only the text buffer and the cursor position.
 */
module State {

  /**
   * The cursor marker appended when the buffer is rendered. The source
   * literal is the three characters U+00E2, U+2013, U+02C6 (as written in
   * the file); they read like the UTF-8 bytes of U+2588 FULL BLOCK decoded
   * as Windows-1252, but the model keeps the literal as written.
   */
  const CursorMarker: string := "\U{00E2}\U{2013}\U{02C6}"

  datatype AppState = AppState(shellString: string, cursorPos: nat)

  /** `AppState::new`: an empty buffer with the cursor at position zero. */
  function New(): (st: AppState)
    ensures st.shellString == []
    ensures st.cursorPos == 0
    ensures GetAsString(st) == CursorMarker
  {
    AppState("", 0)
  }

  /** `AppState::get_as_string`: the buffer followed by the cursor marker. */
  function GetAsString(st: AppState): (r: string)
    ensures |r| == |st.shellString| + |CursorMarker|
    ensures r[..|st.shellString|] == st.shellString
    ensures r[|st.shellString|..] == CursorMarker
  {
    st.shellString + CursorMarker
  }

  /** Recovers the buffer from a rendered string by dropping the marker. */
  function StripMarker(r: string): (s: string)
    requires |r| >= |CursorMarker|
    ensures |s| + |CursorMarker| == |r|
  {
    r[..|r| - |CursorMarker|]
  }

  /** Rendering loses nothing: the buffer is recoverable from its rendering. */
  lemma RenderRoundTrip(st: AppState)
    ensures StripMarker(GetAsString(st)) == st.shellString
  {
  }

  /** Two states render alike exactly when their buffers are equal. */
  lemma RenderInjective(st1: AppState, st2: AppState)
    ensures GetAsString(st1) == GetAsString(st2) <==> st1.shellString == st2.shellString
  {
  }
}
