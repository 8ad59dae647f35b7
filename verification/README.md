# ocean terminal core, modelled in Dafny

A model of the small pure core of the `ocean` terminal emulator:

- **Output fold** (`Delegate` module). The handler for a `SHELL_OUTPUT` command takes the actions the termwiz escape parser decoded from one chunk of shell output and folds them, in order, into the flat text buffer `shell_string`. `Print(c)` appends `c`. A line feed appends `'\n'`. A carriage return does nothing. A backspace pops the last character, and does nothing on an empty buffer. Every other action is ignored. That includes `PrintString(s)`, which falls into the catch-all arm at `src/app/delegate.rs:50`: if the parser merges consecutive printable characters into a `PrintString`, none of that text reaches the buffer. The model keeps this behaviour as written.
- **Key table** (`Delegate` module). `Delegate::event` turns a key press into at most one string for the shell:
  - Enter sends `"\n"`.
  - Backspace sends `"\x7f"`.
  - Ctrl+Shift+V sends the clipboard.
  - Ctrl+c sends `"\x03"` and Ctrl+d sends `"\x04"`.
  - Any other character key sends its own text.
  - Every other key sends nothing.
  - The event is always passed on unchanged.
- **Application state** (`State` module). `AppState::new` and `get_as_string`, which renders the buffer followed by a cursor marker.
- **Shell selection** (`Shell` and `NestedShell` modules). `get_shell` uses the configured shell if there is one, else `SHELL` from the environment, else `/bin/sh`. The program has two identical copies of it.

The program has no cursor grid, clamping, scrollback or escape-sequence state of its own. A richer screen model (grid, wrapping, carriage return moving to column 0, backspace moving the cursor) is not what this code does. The model follows the code: it keeps a flat string, a carriage return is a no-op and a backspace deletes.

Inputs that the program gets from the outside are parameters of the model:
- the parser's decoded actions (`Command.ShellOutput`);
- the clipboard contents (`Option<string>`: `None` means `get_string` found nothing);
- the `SHELL` environment value (`Option<string>`: `None` covers both "unset" and "not valid Unicode").

The cursor-marker literal in `src/app/state.rs:25` is the three characters U+00E2, U+2013, U+02C6. They look like the UTF-8 bytes of U+2588 FULL BLOCK read as Windows-1252. The model keeps the three characters exactly as written (`State.CursorMarker`).

## Model

| member | source | states |
|---|---|---|
| State.New | src/app/state.rs:15-21 | a new state has an empty buffer, cursor position 0, and renders as the marker alone |
| State.GetAsString | src/app/state.rs:24-26 | the rendering is the buffer as a prefix followed by exactly the cursor marker, so its length is the buffer's length plus the marker's |
| State.RenderRoundTrip | src/app/state.rs:24-26 | dropping the marker from a rendering gives back the buffer, so rendering loses nothing |
| State.RenderInjective | src/app/state.rs:24-26 | two states render to the same string if and only if their buffers are equal |
| Delegate.PopLast | src/app/delegate.rs:45-47 | popping removes exactly the last character and is a no-op on an empty buffer |
| Delegate.Step | src/app/delegate.rs:34-51 | Print(c) appends c; line feed appends a newline; carriage return, every other control code and every non-Print/non-Control action leave the buffer unchanged; backspace pops; the length changes by -1, 0 or +1 |
| Delegate.EraseUndoesAppend | src/app/delegate.rs:35-47 | a backspace after a Print or a line feed restores the buffer as it was before |
| Delegate.ApplyActions | src/app/delegate.rs:33-52 | the actions of one chunk are folded into the buffer in order; an empty chunk leaves the buffer unchanged, and each action moves the length by at most one, so the length stays within the chunk's size of the old length |
| Delegate.ApplyConcat | src/app/delegate.rs:33-52 | actions are applied strictly in order: applying xs + ys is applying xs and then ys |
| Delegate.ApplySnoc | src/app/delegate.rs:33-52 | one more action at the end of a chunk is applied after all the others |
| Delegate.ApplyWithoutErasures | src/app/delegate.rs:33-52 | a chunk without backspaces appends exactly its printed characters and newlines, in order |
| Delegate.ApplyLocality | src/app/delegate.rs:33-52 | a chunk with k backspaces never touches the buffer except its last k characters; the part before them stays in front unchanged |
| Delegate.ApplyKeepsPrefix | src/app/delegate.rs:33-52 | everything but the last k characters of the old buffer is a prefix of the new one, where k is the chunk's number of backspaces |
| Delegate.ApplyLengthBounds | src/app/delegate.rs:33-52 | the new length is at most the old length plus the chunk's appended characters, and at least that minus the chunk's backspaces |
| Delegate.IgnoredActionsVanish | src/app/delegate.rs:42-50 | removing every ignored action from a chunk, wherever it occurs, does not change the result |
| Delegate.ApplyOutput | src/app/delegate.rs:33-52 | the in-place push/pop loop over the actions computes the same buffer as the ordered fold |
| Delegate.HandleCommand | src/app/delegate.rs:13-56 | PROCESS_EXITED is handled and requests quit with the state unchanged; SHELL_OUTPUT is handled and folds the actions into the buffer; any other command is not handled and changes nothing; the cursor position is never changed |
| Delegate.ChunkedOutput | src/app/delegate.rs:26-54 | delivering output actions in two commands leaves the same state as delivering them in one |
| Delegate.FirstChar | src/app/delegate.rs:71 | the first character of a key's text exists exactly when the text is non-empty |
| Delegate.OnEvent | src/app/delegate.rs:58-119 | Ctrl+Shift+V sends the clipboard, and panics if the clipboard is empty; Ctrl+c sends 0x03 and Ctrl+d sends 0x04; any other ctrl chord falls through to sending the key's text; Enter sends a newline; Backspace sends 0x7F; a plain character key sends its text; nothing is sent exactly for other keys and non-key-press events; the event is always passed on unchanged |
| Delegate.ClipboardOnlyForPaste | src/app/delegate.rs:69-82 | for every event other than Ctrl+Shift+V, the outcome does not depend on the clipboard |
| Delegate.AltMetaIgnored | src/app/delegate.rs:67-114 | the alt and meta modifiers never change what is sent |
| Shell.GetShell | src/shell.rs:15-21 | a configured shell is returned as is; otherwise the SHELL value if set; otherwise /bin/sh |
| Shell.ConfiguredIgnoresEnvironment | src/shell.rs:16-18 | when a shell is configured the result does not depend on the environment |
| Shell.UnconfiguredIgnoresRest | src/shell.rs:19 | when no shell is configured the environment value alone decides the result |
| NestedShell.GetShell | src/shell/shell.rs:14-20 | a configured shell is returned as is; otherwise the SHELL value if set; otherwise /bin/sh |
| NestedShell.AgreesWithShell | src/shell/shell.rs:14-20 | the copy in src/shell/shell.rs chooses the same shell as the one in src/shell.rs for every configuration and environment |

## Left out

- The termwiz escape parser (`Parser::parse_as_vec`) is an external library. Its decoded actions are an input of the model, and how it handles chunk boundaries cannot be stated from this code.
- The parser, its decoding state and its `Arc<Mutex<Parser>>` lock are not modelled. The source reuses one parser for every SHELL_OUTPUT command, so a partial escape sequence can carry over between chunks, and nothing in the model stands for that. `AppState` keeps only the buffer and the cursor position, and `HandleCommand` takes and returns it in place of `&mut AppState`.
- `PrintString(s)` is kept as an action the handler ignores, as the catch-all arm at src/app/delegate.rs:50 does; its text never reaches the buffer.
- The action payloads of the non-text termwiz variants (CSI, OSC, escape, device control, images) are abstracted away, because the handler ignores them.
- Logging of channel-send failures is left out, as is the channel itself. The model returns the string that would be sent, and a failed send changes nothing else.
- The clipboard read and `Application::global().quit()` are UI calls. The clipboard is a parameter, and quitting is the `quit` flag of `Delegate.CommandResult`.
- `spawn_shell` (PTY creation, child spawn, the two tokio read/write pump tasks) in both shell modules is OS I/O and concurrency.
- Config file discovery and TOML parsing (src/config/config.rs) are filesystem I/O. Of src/config/model.rs only `defaults.shell` is modelled, because the font and window sections are cosmetic floating-point settings.
- src/main.rs (window layout, float alpha arithmetic) and src/render/ (GPU rendering) are UI and graphics.
- `get_as_string` is read-only: in this model that holds by construction, since `State.GetAsString` is a pure function of the state.
