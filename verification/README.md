# Auto Markdown Preview Lock — a Dafny model of the extension's core

The extension watches which text editor is active in the editor host. When the
active editor shows a Markdown document, it opens that document's rendered
preview beside it and hands keyboard focus back to the editor group. This model
covers three pieces of this early version of the extension:

- **the preview state store** (`State`, src/state.ts). This is one record with
  three fields: `currentPreviewUri`, `lastActiveKind` and `isPreviewLocked`.
  It lives in a module-level cell, and every update replaces the whole record.
  The module offers three single-field setters, a preview-only reset and a
  full reset. Since the store is synchronous, a series of calls is modelled
  as a fold (`Run`) over a sequence of `Call`s.
- **configuration defaulting** (`Config`, src/config.ts). A stored setting is a
  sum type: absent, boolean, string, number or other. The `autoMdPreview`
  section is a map from key name to setting. Each of the three flags takes the
  stored boolean, or its default (`true`) when the key holds anything else.
- **active-editor dispatch** (`Extension`, src/extension.ts). The host's command
  service is an abstract `Executor` that says whether each command's promise
  resolves or rejects. Handling an event yields a `Settled` value: the
  commands issued, in order, and the rejection that was caught, if any.
  `AwaitChain` is an independent reference meaning for a `try` block that
  awaits commands one after another. The preview function is proved equal to
  it. The handler is proved equal to it too, on the commands preview and focus
  for a Markdown editor and on no commands for any other editor.

Document URIs are opaque: only their equality matters.

`previewToSide` awaits the host's commands with no timeout
(src/extension.ts:9,11). Nothing in this version writes `isPreviewLocked`
apart from the store's own setters.

## Model

| member | source | states |
|---|---|---|
| State.SetCurrentPreviewUri | src/state.ts:21-23 | the new record holds the given URI (read back via getPreviewState); kind and lock are unchanged |
| State.SetLastActiveKind | src/state.ts:25-27 | the new record holds the given kind; URI and lock are unchanged |
| State.SetPreviewLocked | src/state.ts:29-31 | the new record holds the given lock flag; URI and kind are unchanged |
| State.ResetPreviewState | src/state.ts:33-35 | the preview URI is cleared and the lock is false, while lastActiveKind is preserved |
| State.ResetAllState | src/state.ts:37-39 | whatever the prior state, the result has no URI, kind non-markdown and no lock (the defaults of lines 11-15) |
| State.ResetsIdempotent | src/state.ts:33-39 | applying either reset twice equals applying it once; a full reset equals the initial store |
| State.Run | src/state.ts:17-39 | over any series of calls, a field that no call writes keeps its value |
| State.ApplyWrites | src/state.ts:21-39 | each single call changes exactly the fields it writes, to the value it writes |
| State.RunIsLastWrite | src/state.ts:17-39 | after any series of calls, each field holds the value written to it last, or its initial value if nothing wrote it |
| State.RunForgetsBeforeResetAll | src/state.ts:37-39 | calls after a full reset behave exactly as on a freshly initialised store, whatever came before |
| State.RunEndingInResetPreview | src/state.ts:33-35 | after any history, a preview reset leaves no URI and no lock, and the last kind written |
| Config.ReadBoolean | src/config.ts:15-26 | returns the stored value when it is a boolean, and the supplied default otherwise (absent, string, number, other) |
| Config.GetAutoMdPreviewConfig | src/config.ts:28-38 | each of the three fields is the boolean stored under its own key, or that field's default |
| Config.DefaultsAllTrue | src/config.ts:9-13 | all three default flags are true |
| Config.ReadStoredRoundTrip | src/config.ts:28-38 | when all three keys hold booleans, the result mirrors them exactly |
| Config.EmptySectionGivesDefaults | src/config.ts:28-38 | an empty configuration yields the default configuration |
| Config.FieldDependsOnlyOnOwnKey | src/config.ts:31-37 | two sections that agree on a key give the same value for that field |
| Config.UpdateIsLocal | src/config.ts:31-37 | storing any value, valid or not, under one key leaves the other two fields unchanged |
| Config.InvalidValuesFallBack | src/test/config.test.ts:43-57 | 'yes' and 'no' stored as strings fall back to the defaults |
| Extension.AwaitChain | src/extension.ts:7-15 | a try block awaiting commands in order issues a prefix of them, every command but the last resolved, and it catches exactly the first rejection |
| Extension.PreviewToSide | src/extension.ts:7-15 | the preview command for the URI comes first; focus is issued iff the preview resolved; a rejection is caught and is the last command issued |
| Extension.PreviewToSideIsAwaitChain | src/extension.ts:7-15 | previewToSide equals the try block awaiting showPreviewToSide(uri) and then focusActiveEditorGroup |
| Extension.MarkdownEditorExactly | src/extension.ts:17-19 | an absent editor is not Markdown; a present one is exactly when its languageId equals "markdown" |
| Extension.HandleActiveEditorChange | src/extension.ts:21-27 | a non-Markdown or absent editor issues nothing; otherwise at most preview then focus, and focus only after the preview resolved; failures end the run caught; the issued commands carry the ids markdown.showPreviewToSide and workbench.action.focusActiveEditorGroup |
| Extension.HandlerIsAwaitChainOnMarkdown | src/extension.ts:21-27 | commands are issued iff the editor is Markdown; the handler is the await chain of preview and focus on a Markdown editor and the empty chain otherwise |
| Extension.PreviewFailureContained | src/extension.ts:8-14 | if the preview command rejects, the run is that single command with its rejection caught |

## Left out

- `activate` and `deactivate` (src/extension.ts:29-42) only register the listener and run it once for the editor active at startup.
- Logging (`console.log`, `console.warn`, `console.error`) is a side effect only. `Settled.caught` records which rejection `console.error` would report.
- Several handler invocations are not modelled as one trace. Each event starts the handler without awaiting it, so the commands of two events may interleave in an order the host decides.
- Extension.HandleActiveEditorChange: a command whose promise never settles is outside the model, because the executor answers every command with resolve or reject. In the source the handler would then wait forever after issuing only that command, with no focus request, no log line and no completion. So "the handler always completes" holds only for a host whose commands settle.
- Extension.HandleActiveEditorChange: the executor answers per command, so the model cannot express a host that answers the same command differently on two calls. Within one event each command is issued at most once, so this loses nothing.
- The host API itself is not modelled: command execution, tab groups and `getConfiguration('autoMdPreview')`. The section is a parameter of `Config.GetAutoMdPreviewConfig`.
- The controller exercised by src/test/behavior.test.ts is not part of this model: split mode, pinned documents, group locking, burst-close detection, suppression and document-close handling. Its test hooks and extra state fields do not exist in the modelled src/extension.ts or src/state.ts.
- State.GetPreviewState returns a value. The source returns the live record object (src/state.ts:19), so a caller could change it in place without going through the setters. The model does not capture that aliasing, and no code in src/ changes the record that way.
- URI structure is not modelled. `Uri` is compared only for equality.
