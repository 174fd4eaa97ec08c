# PillOCR core in Dafny

PillOCR watches the clipboard for screenshots of formulas. It sends each new image to an
OpenAI-compatible chat model, strips the code fence from the reply, rewrites the LaTeX
delimiters to the wrappers the user chose, and copies the result back to the clipboard.
A tray menu and a global hotkey start and stop it.

This project models three pieces of that core:

- **The delimiter rewriter** (`Markdown`, markdown_processor.dfy). `modify_wrappers` is a
  chain of four `re.sub` calls:
  - delete every run of three or more `$`;
  - rewrite `\[ … \]` across lines with the block wrapper;
  - rewrite `\( … \)` within a line with the inline wrapper;
  - collapse `$ x $` to `$x$`.

  Each pass is a recursive scan that tries a match where Python's engine would, in the
  same backtracking order. Lemmas then give each pass in closed form. `MarkdownProcessor`
  is a class holding the two wrapper strings.
- **Transcription and its control** (`Transcription`, `CaptureLoop` and `GptOcrGui`).
  - `process_image` is modelled as follows: the missing-client error, the request with
    its PNG data URI, the anchored code-fence regex (modelled literally) and the rewrite.
  - The clipboard loop is a pure specification over a finite sequence of clipboard reads
    (`Run`), plus a `while` method on the `ImageToMarkdown` class proved equal to it.
  - The provider branch of `set_proxy`, the running flag, the tray menu label,
    `save_settings` and `update_client_settings` are methods of the `ImageToMarkdown`
    and `App` classes.
- **The hotkey managers** (`Hotkeys`, hotkey_manager.dfy): the Windows manager over a
  model of the `keyboard` library's hotkey table, the inert macOS manager, and the factory
  that picks one by platform.

Shared pieces:

- `Common` holds `Option` and `Result`.
- `Text` holds Python's whitespace (`str.isspace`, which is also what `\s` matches in a
  `str` pattern), `str.strip`, `str.split` on one character, and `str.startswith`.

I/O and foreign calls are parameters of the members that use them:

- the image encoder: `encode: Image -> string`;
- the chat-completion call: `complete: (Client, Request) -> Result<string>`;
- the error the `OpenAI(...)` constructor may raise: `connect`;
- the error `pyperclip.copy` may raise: `copy`;
- the error writing the configuration file may raise: `saveError`;
- the clipboard reads: `clips`;
- the platform name and whether `import keyboard` succeeded.

Log lines that the application writes through `log_callback` or `App.log` are returned or
collected in a `logLines` field.

## Model

| member | source | states |
|---|---|---|
| Markdown.MarkdownProcessor.constructor | processors/markdown_processor.py:4-6 | a new processor has inline wrapper `$ $` and block wrapper `$$ $$` |
| Markdown.MarkdownProcessor.SetWrappers | processors/markdown_processor.py:8-10 | both wrapper strings are stored verbatim |
| Markdown.DeleteDollarRunsNoTriple | processors/markdown_processor.py:14 | after the first pass the text has no three consecutive `$` |
| Markdown.DeleteDollarRunsKeepsOthers | processors/markdown_processor.py:14 | the first pass removes only `$`: every other character is kept, in order |
| Markdown.DeleteDollarRunsClean | processors/markdown_processor.py:14 | text without three consecutive `$` is left as it is, so runs of one or two `$` survive |
| Markdown.DeleteDollarRunsLeading | processors/markdown_processor.py:14 | a leading run of three or more `$` disappears whole; a shorter one is kept |
| Markdown.DeleteDollarRunsIdempotent | processors/markdown_processor.py:14 | the first pass applied twice equals the first pass applied once |
| Markdown.WrapperTokens | processors/markdown_processor.py:17-19 | a wrapper is accepted exactly when it holds one space; its two tokens, joined by that space, give it back |
| Text.Split | processors/markdown_processor.py:17 | `split(' ')` gives one more piece than there are separators; no piece holds one; joining the pieces gives the text back |
| Markdown.RewriteSpansSpan | processors/markdown_processor.py:20-22 | the first `open`, and the first `close` after it, delimit a span that becomes `left + strip(c) + right`; the text before it is copied; the text after it is handled on its own (non-greedy) |
| Markdown.RewriteSpansNoOpen | processors/markdown_processor.py:20-30 | text in which the opening delimiter does not occur passes a span pass unchanged |
| Markdown.RewriteSpansUnclosed | processors/markdown_processor.py:20-30 | an opening delimiter with no closing delimiter after it is kept as it is |
| Markdown.RewriteSpansCrossLine | processors/markdown_processor.py:28-30 | without DOTALL, a `\(` whose first `\)` lies on a later line is kept as it is |
| Markdown.SpansAppend | processors/markdown_processor.py:20-30 | the span scan never looks back: after a prefix it is the scan of the rest |
| Markdown.FindPairFirst | processors/markdown_processor.py:20-30 | the search for a delimiter returns its first occurrence |
| Text.StripSlice | processors/markdown_processor.py:21 | `strip()` keeps the part between the leading and the trailing run of whitespace |
| Text.StripEmpty | processors/markdown_processor.py:21 | `strip()` gives the empty string exactly for all-whitespace text |
| Text.StripEnds | processors/markdown_processor.py:21 | a non-empty `strip()` result neither starts nor ends with whitespace |
| Text.StripFrame | processors/markdown_processor.py:21 | the text is a whitespace prefix, its `strip()`, and a whitespace suffix |
| Text.StripPadded | processors/markdown_processor.py:21 | `w1 + x + w2` strips to `x` when `w1`, `w2` are whitespace and `x` does not start or end with it |
| Markdown.MatchAfterDollar | processors/markdown_processor.py:33 | one regex attempt at a `$` matches exactly when the text up to the next `$` has at least three characters with whitespace at both ends; the match ends at that `$` and captures the collapsed group |
| Markdown.CollapseIsPairs | processors/markdown_processor.py:33 | the regex scan of the fourth pass equals a scan over consecutive pairs of `$` |
| Markdown.CollapseSpan | processors/markdown_processor.py:33 | at `$ m $` with no `$` in `m`: collapsed when `m` is collapsible; otherwise the first `$` and `m` are kept and the second `$` opens the next attempt (so `$x $` is unchanged) |
| Markdown.CollapseTrimmed | processors/markdown_processor.py:33 | `$<ws+>x<ws+>$` becomes `$x$` when `x` has no `$` and no whitespace at its ends |
| Markdown.RewriteMalformedWrappers | processors/markdown_processor.py:14-33 | each wrapper gates only its own passes: a malformed block wrapper skips the `\[…\]` pass alone, a malformed inline wrapper skips the `\(…\)` pass and the `$ x $` collapse alone, and with both malformed only the `$`-run deletion runs |
| Markdown.RewritePlainText | processors/markdown_processor.py:12-35 | text with no `$`, no `\[` and no `\(` is returned unchanged for any wrappers |
| Transcription.DataUri | GPTOCRGUI.py:90 | the image reference is the PNG data-URI prefix followed by the encoding, which can be read back unchanged |
| Transcription.DataUriInjective | GPTOCRGUI.py:90 | different encodings give different data URIs |
| Transcription.RequestFor | GPTOCRGUI.py:92-107 | the request carries the model, the fixed prompt, the data URI of the encoding and `max_tokens` 1000 |
| Transcription.FenceLazy | GPTOCRGUI.py:110 | the lazy body ends at the first place where `\n```` followed by only whitespace closes the text |
| Transcription.FenceLazyFirst | GPTOCRGUI.py:110 | the first closing position is the one the lazy scan returns |
| Transcription.FenceTry | GPTOCRGUI.py:110 | with the greedy `\s*` of length `w` tried first and then shorter ones, a match starts its body just after a newline at most `w` characters past the opening fence, and ends where the fence closes |
| Transcription.FenceTrySpaces | GPTOCRGUI.py:110 | everything between the opening fence and that newline is whitespace |
| Transcription.StripFence | GPTOCRGUI.py:110 | text not starting with ```` ```markdown ```` passes through unchanged; the result is never longer than the text |
| Transcription.FenceSound | GPTOCRGUI.py:110 | a matched reply is the opening fence, whitespace, a newline, the body, `\n````, and trailing whitespace |
| Transcription.StripFenceExact | GPTOCRGUI.py:110 | text of exactly that form is reduced to its body, when the body is empty or does not start with whitespace; the body may hold closing fences of its own, since `\n```\s*$` closes only where nothing but whitespace follows |
| Transcription.StripFenceNested | GPTOCRGUI.py:110 | a reply whose body holds a fenced code block keeps that block whole |
| Transcription.Transcribe | GPTOCRGUI.py:86-111 | without a client `process_image` fails with its message before any request; otherwise it succeeds exactly when the chat call does, and passes on its error |
| Transcription.TranscribeFenced | GPTOCRGUI.py:109-111 | a fenced reply whose body is empty or does not start with whitespace is unwrapped first, fenced blocks inside it included, and its body is then rewritten with the wrappers |
| Transcription.TranscribeUnfenced | GPTOCRGUI.py:109-111 | a reply not opening with ```` ```markdown ```` is rewritten with the wrappers as it stands |
| CaptureLoop.Step | GPTOCRGUI.py:116-133 | a read that is not a new image does nothing; a pass fails exactly on a read error or a new image not both transcribed and copied; `last_image` becomes the image only when both succeeded; a failed read logs the error and shows `error`; a new image logs the detection and shows `processing`, then either logs the transcription's or the copy's error and shows `error`, or copies the transcription, logs the copy and shows `success` |
| CaptureLoop.Run | GPTOCRGUI.py:113-133 | a run that is still going has consumed every read; a stopped run has consumed at least one |
| CaptureLoop.StepStatuses | GPTOCRGUI.py:119-131 | one pass shows no status, `processing` then `success`, or `error` after at most one `processing` when it fails |
| CaptureLoop.RunStatusFlow | GPTOCRGUI.py:119-131 | every run shows `processing`, `success` pairs, possibly followed at the very end by `error` |
| CaptureLoop.RunSkipsSeen | GPTOCRGUI.py:117-118 | reads that are no image, or the last image again when there is one, produce no event and change nothing, from the loop's start on too |
| CaptureLoop.RunLastDelivered | GPTOCRGUI.py:122-127 | `last_image` only becomes an image that was read, transcribed and copied |
| CaptureLoop.RunStopsOnError | GPTOCRGUI.py:129-133 | the loop stops only on a failed read or a failed image, and then its last status is `error` |
| CaptureLoop.RunIgnoresLater | GPTOCRGUI.py:129-133 | once stopped, later reads are never consumed |
| CaptureLoop.RunCopies | GPTOCRGUI.py:122-123 | every text the loop writes to the clipboard is the transcription of an image among the reads it consumed, and that write did not fail |
| CaptureLoop.RunAdvance | GPTOCRGUI.py:113-133 | one pass of the loop followed by the rest of the reads is the run of all the reads |
| CaptureLoop.StatusesAppend | GPTOCRGUI.py:119-131 | the statuses of two event sequences in a row are the two status sequences in a row |
| GptOcrGui.ImageToMarkdown.constructor | GPTOCRGUI.py:19-27 | a new processor is not running, has no client, model `gpt-4o`, provider `OPENAI` and default wrappers |
| GptOcrGui.ImageToMarkdown.SetProvider | GPTOCRGUI.py:29-31 | the provider is stored as given |
| GptOcrGui.ProxyOf | GPTOCRGUI.py:42-49 | a proxy is attached exactly when the proxy string is not empty |
| GptOcrGui.ClientFor | GPTOCRGUI.py:40-78 | `OPENAI` asks for a client with the default base URL, `火山引擎` for the Volcano Engine URL, `自定义` for the stripped custom URL and fails when that is blank, and an unknown provider asks for none |
| GptOcrGui.NewClient | GPTOCRGUI.py:38-81 | the client changes only to a client that was asked for and built without error |
| GptOcrGui.ClientLog | GPTOCRGUI.py:79-81 | exactly the errors are logged, one line each, with the error text after the fixed prefix: the error of the URL check, or the one the client constructor raised |
| GptOcrGui.ImageToMarkdown.SetProxy | GPTOCRGUI.py:38-81 | the stored client and the log lines are those `ClientFor`, `NewClient` and `ClientLog` give |
| GptOcrGui.ImageToMarkdown.SetGptModel | GPTOCRGUI.py:83-84 | any model name, the empty one included, is stored as given |
| GptOcrGui.ImageToMarkdown.SetWrappers | GPTOCRGUI.py:142-144 | the wrappers reach the markdown processor verbatim |
| GptOcrGui.ImageToMarkdown.Start | GPTOCRGUI.py:135-137 | `start` sets the running flag |
| GptOcrGui.ImageToMarkdown.Stop | GPTOCRGUI.py:139-140 | `stop` clears the running flag |
| GptOcrGui.ImageToMarkdown.ProcessClipboardImage | GPTOCRGUI.py:113-133 | the loop does nothing when not running; otherwise its events, the reads it consumes and the final flag are those of `Run` with the processor's transcription |
| GptOcrGui.SettingsEntry | GPTOCRGUI.py:589-608 | the saved entry holds the stripped API key, proxy and model, and a stripped `url` only for `自定义` |
| GptOcrGui.ModelFor | GPTOCRGUI.py:532-537 | a model is set exactly for the three known providers: the saved one when there is one, otherwise `gpt-4o` for `OPENAI` and the empty string for `火山引擎` and `自定义` |
| GptOcrGui.App.constructor | GPTOCRGUI.py:182-334 | the settings start as the three default provider entries, with `OPENAI` selected and not running; `create_tray_icon` leaves the tray on the grey `processing` image |
| GptOcrGui.App.MenuLabel | GPTOCRGUI.py:449-455 | the first menu item reads `停止` exactly when running, `启动` otherwise |
| GptOcrGui.App.StartProcessing | GPTOCRGUI.py:418-423 | the processor runs, the state is running, the icon shows success, and one log line is added |
| GptOcrGui.App.StopProcessing | GPTOCRGUI.py:425-431 | the processor stops, the state is not running, the icon shows processing, and one log line is added |
| GptOcrGui.App.ToggleProcessing | GPTOCRGUI.py:460-467 | the running state flips, the processor follows it, and the menu then offers the opposite action |
| GptOcrGui.App.UpdateClientSettings | GPTOCRGUI.py:520-537 | the selected provider's saved proxy goes to `set_proxy` and its model is set, for known providers only |
| GptOcrGui.App.SaveSettings | GPTOCRGUI.py:584-627 | an unknown provider changes nothing; otherwise only its entry is replaced; a save error is logged and leaves the client alone; a successful save makes the stripped proxy and model the processor's |
| Hotkeys.KeyToRemove | utils/hotkey_manager.py:125 | `hotkey_str or current_hotkey`: the given key when it is not empty, the current one otherwise |
| Hotkeys.Keyboard.AddHotkey | utils/hotkey_manager.py:113 | adding succeeds exactly for a hotkey string the library accepts, and then maps it to the callback |
| Hotkeys.Keyboard.RemoveHotkey | utils/hotkey_manager.py:127 | removing succeeds exactly for a registered hotkey, and then drops it |
| Hotkeys.WindowsHotkeyManager.constructor | utils/hotkey_manager.py:19-30 | a new manager has no hotkey, no screenshot listener, and nothing active |
| Hotkeys.WindowsHotkeyManager.SetCallback | utils/hotkey_manager.py:74-80 | the callback is replaced |
| Hotkeys.WindowsHotkeyManager.RegisterHotkey | utils/hotkey_manager.py:104-118 | without the library it fails and changes nothing; it succeeds exactly when the library takes the hotkey; it first removes the current hotkey; on success the new hotkey is current and active |
| Hotkeys.WindowsHotkeyManager.UnregisterHotkey | utils/hotkey_manager.py:120-133 | without the library it fails and changes nothing; it removes the given or current key; it clears the current hotkey only for `None` or the current key; it fails without change for an unregistered key; with nothing to remove it succeeds and changes nothing |
| Hotkeys.WindowsHotkeyManager.RegisterScreenshotListener | utils/hotkey_manager.py:135-150 | as `register_hotkey`, for the listener's three fields, which are set together; the main hotkey is untouched |
| Hotkeys.WindowsHotkeyManager.UnregisterScreenshotListener | utils/hotkey_manager.py:152-164 | removes the listener's hotkey and clears its three fields together; with no listener it succeeds and changes nothing |
| Hotkeys.MacOSHotkeyManager.constructor | utils/hotkey_manager.py:19-30 | a new manager has no hotkey, no screenshot listener, and nothing active |
| Hotkeys.MacOSHotkeyManager.SetCallback | utils/hotkey_manager.py:74-80 | the callback is replaced |
| Hotkeys.MacOSHotkeyManager.RegisterHotkey | utils/hotkey_manager.py:170-174 | always succeeds, records the hotkey, and is never active |
| Hotkeys.MacOSHotkeyManager.UnregisterHotkey | utils/hotkey_manager.py:176-181 | always succeeds; clears the hotkey only for `None` or the current one |
| Hotkeys.MacOSHotkeyManager.RegisterScreenshotListener | utils/hotkey_manager.py:183-188 | always succeeds, records the hotkey and callback, and is never active |
| Hotkeys.MacOSHotkeyManager.UnregisterScreenshotListener | utils/hotkey_manager.py:190-195 | always succeeds and clears the listener's three fields |
| Hotkeys.KeyboardAvailable | utils/hotkey_manager.py:9-15 | the library counts as available only on Windows |
| Hotkeys.CreateHotkeyManager | utils/hotkey_manager.py:198-210 | the Windows manager exactly on Windows, the macOS stub otherwise; either one is new, keeps the callback, and has no hotkey, no screenshot hotkey or callback, and nothing active |

## Left out

- Threads: `start` spawns the loop on a daemon thread. The model runs the loop as a plain
  method after `start`, so a `stop` from another thread during the loop is not modelled.
- The one-second sleep, and the loop running forever: the loop is modelled over a finite
  sequence of clipboard reads, and stops when the reads run out.
- Tk widgets, layout, the log text box, window show/hide, the tray icon drawing and
  `pystray`: these are UI. The widget variables are plain string fields.
- The `keyboard` library's own behaviour. In the model a hotkey string it rejects is a
  fixed set, and adding a hotkey a second time replaces the earlier entry rather than
  adding a second handler.
- `update_icon_status`'s guard on a running tray icon: the model takes the tray to be
  running, so every status is shown.
- The OpenAI and httpx calls, `ImageGrab`, `pyperclip` and the base64/PNG encoder
  (processors/image_encoder.py): these are foreign I/O, modelled as function parameters.
- `set_api_key` and `os.environ`: process environment, not modelled.
- `log_callback` being `None`: the model always logs.
- The configuration file (utils/config_manager.py, `load_settings`) and
  utils/path_tools.py: file I/O. `App.constructor` gives the settings from before
  `load_settings` runs. `SaveSettings` takes the write's error as a parameter.
- The app-level `register_hotkey`/`unregister_hotkey`, `save_hotkey`, `update_wrappers`,
  `auto_start` and `on_provider_change` in GPTOCRGUI.py: thin calls into the library or the
  UI.
- The base class `HotkeyManager`: its methods only raise `NotImplementedError`, and it is
  never instantiated. Its constructor and `set_callback` are modelled in each of the two
  subclasses.
- `HotkeyManager.should_show_ui` (utils/hotkey_manager.py:91-98): it only tells the UI
  whether to show the hotkey widgets, which are not modelled.
- `HotkeyManager.is_supported` is the module constant `KEYBOARD_AVAILABLE`. It is
  modelled as `Hotkeys.KeyboardAvailable` of the platform and of whether the import
  succeeded.
- Transcription.StripFenceExact, Transcription.TranscribeFenced: they do not cover a
  non-empty body that starts with whitespace. There the greedy `\s*` may take that
  whitespace up to a newline, so the body captured is shorter. `FenceTry` models that case
  as the regex does. Only an empty body, or one starting with another character, is proved
  to be given back whole.
- Behaviour the code does not have is not modelled, since the code has none of it:
  - a one-shot capture gate;
  - treating the clipboard's image at start-up as seen;
  - a system prompt or a configurable token budget;
  - rejection of empty model names;
  - idempotence of `modify_wrappers`. It fails in general: `$\[x\]` becomes `$$$x$$`,
    which a second call changes. Only the first pass is proved idempotent.
