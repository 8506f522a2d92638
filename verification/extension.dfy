/** Reacting to a change of the active editor (src/extension.ts): when the
    newly active editor shows a Markdown document, open its preview to the
    side and hand focus back to the editor group.

    The host's command service is an abstract `Executor` that tells, for each
    command, whether the returned promise resolves or rejects. Running the
    handler yields the commands it issued, in order, and the rejection it
    caught, if any. */
module Extension {
  import opened Host

  const MarkdownLanguageId: string := "markdown"

  datatype TextDocument = TextDocument(uri: Uri, languageId: string)

  datatype TextEditor = TextEditor(document: TextDocument)

  /** The host commands the handler issues. */
  datatype Command =
    | ShowPreviewToSide(uri: Uri)
    | FocusActiveEditorGroup

  /** The identifier under which the host registers each command. */
  function CommandId(c: Command): string {
    match c
    case ShowPreviewToSide(_) => "markdown.showPreviewToSide"
    case FocusActiveEditorGroup => "workbench.action.focusActiveEditorGroup"
  }

  /** The host's answer to a command: `true` when it resolves, `false` when
      it rejects. */
  type Executor = Command -> bool

  /** How a handler run ends: the commands issued, in order, and the command
      whose rejection was caught and logged. There is no way for a run to end
      with an escaping error. */
  datatype Settled = Settled(issued: seq<Command>, caught: Option<Command>)

  /** Reference semantics of a `try` block that awaits `cmds` one after the
      other and catches every rejection: commands are issued up to and
      including the first one that rejects. */
  function AwaitChain(cmds: seq<Command>, exec: Executor): (r: Settled)
    decreases |cmds|
    ensures |r.issued| <= |cmds| && r.issued == cmds[..|r.issued|]
    ensures forall i :: 0 <= i < |r.issued| - 1 ==> exec(r.issued[i])
    ensures r.caught.None? <==> r.issued == cmds && forall i :: 0 <= i < |cmds| ==> exec(cmds[i])
    ensures r.caught.Some? ==> r.issued != [] && r.caught.value == r.issued[|r.issued| - 1]
                               && !exec(r.caught.value)
  {
    if cmds == [] then Settled([], None)
    else if !exec(cmds[0]) then Settled([cmds[0]], Some(cmds[0]))
    else
      var rest := AwaitChain(cmds[1..], exec);
      Settled([cmds[0]] + rest.issued, rest.caught)
  }

  /** Opens the preview of `uri` beside the editor and then returns focus to
      the editor group; the focus command is only issued once the preview
      command has resolved, and a rejection of either is caught. */
  function PreviewToSide(uri: Uri, exec: Executor): (r: Settled)
    ensures 1 <= |r.issued| <= 2
    ensures r.issued[0] == ShowPreviewToSide(uri)
    ensures |r.issued| == 2 <==> exec(ShowPreviewToSide(uri))
    ensures |r.issued| == 2 ==> r.issued[1] == FocusActiveEditorGroup
    ensures r.caught.Some? <==> exists i :: 0 <= i < |r.issued| && !exec(r.issued[i])
    ensures r.caught.Some? ==> r.caught.value == r.issued[|r.issued| - 1]
  {
    if !exec(ShowPreviewToSide(uri)) then
      Settled([ShowPreviewToSide(uri)], Some(ShowPreviewToSide(uri)))
    else if !exec(FocusActiveEditorGroup) then
      Settled([ShowPreviewToSide(uri), FocusActiveEditorGroup], Some(FocusActiveEditorGroup))
    else
      Settled([ShowPreviewToSide(uri), FocusActiveEditorGroup], None)
  }

  /** `PreviewToSide` is exactly a try block awaiting the two commands in
      order. */
  lemma PreviewToSideIsAwaitChain(uri: Uri, exec: Executor)
    ensures PreviewToSide(uri, exec) ==
            AwaitChain([ShowPreviewToSide(uri), FocusActiveEditorGroup], exec)
  {
  }

  predicate IsMarkdownEditor(editor: Option<TextEditor>) {
    editor.Some? && editor.value.document.languageId == MarkdownLanguageId
  }

  /** An absent editor is never Markdown; a present one is exactly when its
      document's language identifier is "markdown", compared verbatim. */
  lemma MarkdownEditorExactly(editor: Option<TextEditor>)
    ensures editor.None? ==> !IsMarkdownEditor(editor)
    ensures editor.Some? ==>
              (IsMarkdownEditor(editor) <==> editor.value.document.languageId == "markdown")
  {
  }

  /** The listener for active-editor changes. */
  function HandleActiveEditorChange(editor: Option<TextEditor>, exec: Executor): (r: Settled)
    ensures !IsMarkdownEditor(editor) ==> r == Settled([], None)
    ensures IsMarkdownEditor(editor) ==>
              r.issued != [] && r.issued[0] == ShowPreviewToSide(editor.value.document.uri)
    ensures |r.issued| <= 2
    ensures forall i :: 0 <= i < |r.issued| ==>
              (r.issued[i] == FocusActiveEditorGroup <==> i == 1)
    ensures |r.issued| == 2 <==>
              IsMarkdownEditor(editor) && exec(ShowPreviewToSide(editor.value.document.uri))
    ensures r.caught.Some? ==> !exec(r.caught.value) && r.issued[|r.issued| - 1] == r.caught.value
    ensures r.caught.None? ==> forall i :: 0 <= i < |r.issued| ==> exec(r.issued[i])
    ensures forall i :: 0 <= i < |r.issued| ==>
              CommandId(r.issued[i]) ==
                (if i == 0 then "markdown.showPreviewToSide"
                 else "workbench.action.focusActiveEditorGroup")
  {
    if !IsMarkdownEditor(editor) then Settled([], None)
    else PreviewToSide(editor.value.document.uri, exec)
  }

  /** The handler issues commands exactly when the editor is a Markdown
      editor, and then those of the try block awaiting preview then focus;
      on any other editor it is the empty chain. */
  lemma HandlerIsAwaitChainOnMarkdown(editor: Option<TextEditor>, exec: Executor)
    ensures HandleActiveEditorChange(editor, exec).issued != [] <==> IsMarkdownEditor(editor)
    ensures IsMarkdownEditor(editor) ==>
              HandleActiveEditorChange(editor, exec) ==
              AwaitChain([ShowPreviewToSide(editor.value.document.uri), FocusActiveEditorGroup], exec)
    ensures !IsMarkdownEditor(editor) ==> HandleActiveEditorChange(editor, exec) == AwaitChain([], exec)
  {
  }

  /** When the preview command rejects, the run consists of that one command
      and the rejection is caught; focus is never requested. */
  lemma PreviewFailureContained(editor: Option<TextEditor>, exec: Executor)
    requires IsMarkdownEditor(editor)
    requires !exec(ShowPreviewToSide(editor.value.document.uri))
    ensures HandleActiveEditorChange(editor, exec) ==
            Settled([ShowPreviewToSide(editor.value.document.uri)],
                    Some(ShowPreviewToSide(editor.value.document.uri)))
  {
  }
}
