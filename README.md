# Greek transcriber: the conversation step and the transcript export

The transcriber is a Streamlit page that captures microphone audio, sends
each audio chunk to a speech-to-text service, has the English text
translated into Greek, and keeps a running bilingual conversation that can
be downloaded as plain text. This project models the part of `ui.py` that
is logic rather than UI or I/O:

- **Text** (`text.dfy`): Python's `str.strip()` with Python 3's notion of
  white space (`str.isspace`), characterised as the unique stripped infix of
  the input with only white space around it, and proved idempotent.
- **Transcript** (`transcript.dfy`): a conversation entry
  `(english, greek)`, the per-entry text `"🗣️ English: {e}\n🇬🇷 Greek: {g}"`,
  Python's `str.join`, the exported transcript, and the `conversation[-10:]`
  window of entries one stored pass renders.
- **Polling** (`polling.dfy`): one pass of the polling loop over a dequeued
  chunk, as a pure function `Update` of the current conversation and the two
  service replies. `Replay` runs `Update` over a finite sequence of chunks.
  The class `SessionState` holds the session's conversation. Its `Step`
  method appends to that conversation in place, and its contract is to agree
  with `Update`.

The two remote services are not modelled. Their replies are inputs of type
`Reply`: either `Returned(text)`, the text the service gave back, or
`Raised(message)`, the message of the exception the call raised. A
translation reply is read only when the translation service would be asked.
Only a pass whose two calls both return stores an entry. A pass where either
call raises ends with the warning `"⚠️ Error: {message}"` and leaves the
conversation as it was.

## Model

| member | source | states |
|---|---|---|
| `Text.Strip` | ui.py:66 | the stripped text has no white space at either end, is never longer than the input, and is empty exactly when the input is all white space |
| `Text.StripIsInfix` | ui.py:66 | what strip keeps is a contiguous piece of the input with only white space before and after it |
| `Text.StripUnique` | ui.py:66 | any stripped infix of the input with only white space around it is the result of strip, so strip is fully characterised without its scanning |
| `Text.StripStripped` | ui.py:73 | stripping an already stripped text gives it back unchanged |
| `Text.StripIdempotent` | ui.py:66 | stripping twice gives the same as stripping once |
| `Transcript.EntryText` | ui.py:43 | an entry's text is as long as the English label, the English text, the Greek label and the Greek text together |
| `Transcript.EntryTextFields` | ui.py:43 | an entry's text is the English label, the English text, a line break with the Greek label, then the Greek text, so both texts can be read back at their places |
| `Transcript.EntryTexts` | ui.py:43 | one entry text per entry, in conversation order |
| `Transcript.Join` | ui.py:42-44 | joining nothing gives the empty string; otherwise the joined string begins with the first part |
| `Transcript.JoinLength` | ui.py:42-44 | a join is as long as its parts together plus one separator between each two |
| `Transcript.OffsetValue` | ui.py:42-44 | part i of a join starts after the parts before it and one separator after each of them |
| `Transcript.JoinAt` | ui.py:42-44 | every part appears at its offset in the joined string |
| `Transcript.JoinSeparatorAt` | ui.py:42-44 | every part but the last is followed by exactly one separator, after which the next part's offset begins |
| `Transcript.JoinAppend` | ui.py:42-44 | joining one more part appends the separator and that part |
| `Transcript.Export` | ui.py:41-44 | the transcript is empty exactly when the conversation is; otherwise its length is the sum of the entry texts plus two characters per blank line between entries, and it begins with the first entry's text |
| `Transcript.ExportAt` | ui.py:41-44 | entry i's text sits at its offset in the transcript, followed by the blank-line separator unless it is the last entry |
| `Transcript.ExportAppend` | ui.py:41-44 | appending one entry to a non-empty conversation appends a blank line and that entry's text to the transcript |
| `Transcript.ExportGrows` | ui.py:41-44 | as the conversation grows, the earlier transcript stays a prefix of the later one |
| `Transcript.Recent` | ui.py:77 | the window holds the last min(10, n) entries, in conversation order |
| `Transcript.RecentAppend` | ui.py:74-77 | after an append the window gains the new entry at the end and, once it already held 10, drops its oldest entry |
| `Polling.TranslationPrompt` | ui.py:71 | the prompt is the fixed instruction `"Translate this to Greek:\n\n"` followed by the English text |
| `Polling.PromptInjective` | ui.py:71 | the English text can be read back from the prompt: different texts give different prompts |
| `Polling.Update` | ui.py:61-83 | translation is asked exactly when the stripped transcription is non-empty, with the fixed prompt; an entry of the two stripped texts is appended exactly when both calls return and something was heard; otherwise the conversation is unchanged; a raised call is reported with its message; the pass then renders the latest window; the stored-entry invariant is kept |
| `Polling.UpdateStores` | ui.py:66-74 | one pass adds to the conversation exactly what its chunk contributes: one entry of the two stripped texts on success, nothing otherwise |
| `Polling.StoredEntriesAppend` | ui.py:74 | the entries stored by two runs of chunks in a row are those of the first run followed by those of the second |
| `Polling.ReplayAppends` | ui.py:61-74 | processing chunks in order only appends: the result is the starting conversation followed by one entry per successful chunk, in order |
| `Polling.ReplayPrefix` | ui.py:74 | each earlier state of the conversation is a prefix of every later one |
| `Polling.StoredEntriesBound` | ui.py:68-74 | a run of chunks stores at most one entry per chunk |
| `Polling.ReplayValid` | ui.py:66-74 | every stored entry has non-empty English text and both its texts are stripped, after any run of chunks |
| `Polling.HelloThere` | ui.py:61-74 | a chunk transcribed as "Hello there" and translated as "Γεια σου" gives a conversation of exactly that one entry |
| `Polling.SilentChunk` | ui.py:66-68 | a transcription that is all white space stores nothing, asks for no translation and issues no new warning |
| `Polling.SessionState.constructor` | ui.py:21-22 | a new session holds no conversation yet |
| `Polling.SessionState.InitConversation` | ui.py:21-22 | on every rerun the conversation is created empty unless the session already holds one, which is then kept |
| `Polling.SessionState.Step` | ui.py:61-83 | one pass changes the session's conversation, and reports the outcome and the prompt, exactly as `Update` says |
| `Polling.SessionState.TranscriptDownload` | ui.py:87-90 | when the script reaches ui.py:87 (capture not playing), a download is offered exactly when the conversation is non-empty, and it carries the exported transcript, which is then non-empty |

## Left out

- Page setup, the title and help text, the `st.info`/`st.markdown`/`warning` rendering and the download button itself (ui.py:11-17, 48-49, 76-80, 83, 87-93): this is UI. The model keeps which entries a storing pass renders (`Outcome.Stored.shown`), the warning's text (`Outcome.Warned.message`), and when a download is offered.
- What the page as a whole displays: each storing pass writes its `[-10:]` window into `chat_container` (ui.py:39, 76-80), which is never cleared while the loop runs, so the windows of successive passes stack up (after two stored entries the page lists e1, then e1 and e2). A pass that issues no warning leaves the `st.empty()` placeholder (ui.py:49, 83) showing an earlier warning. `Outcome.Stored.shown` is only the window the current pass renders, and `Silence` only says that this pass issues no warning.
- An exception raised by the page rendering after the append (ui.py:76-80): the model treats rendering as unable to fail, so it does not capture a pass that appends an entry and also shows a warning.
- WebRTC capture, `AudioProcessor.recv_audio` and the audio queue shared with the media thread (ui.py:20, 24-37): this is concurrency inside a foreign framework. The queue is unbounded (`queue.Queue()`), and `audio_receiver_size=256` is a setting of that framework, so no bound is modelled.
- The `if webrtc_ctx.state.playing:` guard (ui.py:47): the state of the media connection is not modelled. While capture is playing the endless loop at ui.py:51-85 never exits, so the download at ui.py:87 is reached only on a script run where capture is not playing; `SessionState.TranscriptDownload` models that run.
- The blocking `audio_q.get(timeout=3)`, its `queue.Empty` retry, and the endless `while True` (ui.py:51-55): one pass after a chunk is dequeued is modelled as one step, and a finite run of passes as `Replay`.
- The transcription and translation service calls (ui.py:62-65, 69-73), including the model names they pass: these are remote services, so their replies are opaque inputs. Any failure in reading a reply (`result.text`, `translation.output[0].content[0].text`) is folded into `Raised`.
- Writing the chunk to a temporary WAV file and deleting it in `finally` (ui.py:57-59, 84-85): file I/O and audio encoding.
- The UTF-8 `.encode` of the transcript (ui.py:45): the model speaks about the exported string, not its bytes.
- Splitting the transcript on the blank line does not always give back one piece per entry, because stripped texts can still contain `"\n\n"` inside them. Instead of that claim, the model proves where each entry's text lies in the transcript (`Transcript.ExportAt`).
- Calling the exporter twice on the same conversation gives the same output. In the model this holds without a lemma, since `Export` is a function.
- The exported labels are those ui.py:43 writes ("🗣️ English:" and "🇬🇷 Greek:"), and the audio queue is the unbounded `queue.Queue()` of ui.py:20.
