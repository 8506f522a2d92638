/** The preview state store (src/state.ts): one record held in a module-level
    cell, replaced as a whole by every update and never mutated in place. */
module State {
  import opened Host

  /** Classification of the most recently focused document. */
  datatype LastActiveKind = Markdown | NonMarkdown

  datatype PreviewState = PreviewState(
    currentPreviewUri: Option<Uri>,
    lastActiveKind: LastActiveKind,
    isPreviewLocked: bool)

  /** The record a fresh store holds and a full reset returns to. */
  const DefaultState: PreviewState := PreviewState(None, NonMarkdown, false)

  /** The module-level cell. Every exported operation reads or replaces it. */
  datatype Store = Store(state: PreviewState)

  /** The cell as the module initialises it: a copy of the defaults. */
  const InitialStore: Store := Store(DefaultState)

  function GetPreviewState(st: Store): PreviewState {
    st.state
  }

  /** Records the document the preview renders; the other fields are kept. */
  function SetCurrentPreviewUri(st: Store, uri: Option<Uri>): (r: Store)
    ensures GetPreviewState(r).currentPreviewUri == uri
    ensures GetPreviewState(r).lastActiveKind == GetPreviewState(st).lastActiveKind
    ensures GetPreviewState(r).isPreviewLocked == GetPreviewState(st).isPreviewLocked
  {
    Store(st.state.(currentPreviewUri := uri))
  }

  /** Records the kind of the focused document; the other fields are kept. */
  function SetLastActiveKind(st: Store, kind: LastActiveKind): (r: Store)
    ensures GetPreviewState(r).lastActiveKind == kind
    ensures GetPreviewState(r).currentPreviewUri == GetPreviewState(st).currentPreviewUri
    ensures GetPreviewState(r).isPreviewLocked == GetPreviewState(st).isPreviewLocked
  {
    Store(st.state.(lastActiveKind := kind))
  }

  /** Records whether the preview group is locked; the other fields are kept. */
  function SetPreviewLocked(st: Store, locked: bool): (r: Store)
    ensures GetPreviewState(r).isPreviewLocked == locked
    ensures GetPreviewState(r).currentPreviewUri == GetPreviewState(st).currentPreviewUri
    ensures GetPreviewState(r).lastActiveKind == GetPreviewState(st).lastActiveKind
  {
    Store(st.state.(isPreviewLocked := locked))
  }

  /** Forgets the preview (no document, not locked) but keeps the kind of
      the last focused document. */
  function ResetPreviewState(st: Store): (r: Store)
    ensures GetPreviewState(r).currentPreviewUri.None?
    ensures !GetPreviewState(r).isPreviewLocked
    ensures GetPreviewState(r).lastActiveKind == GetPreviewState(st).lastActiveKind
  {
    Store(st.state.(currentPreviewUri := None, isPreviewLocked := false))
  }

  /** Returns the store to its initial contents, whatever it held before. */
  function ResetAllState(st: Store): (r: Store)
    ensures GetPreviewState(r).currentPreviewUri.None?
    ensures GetPreviewState(r).lastActiveKind == NonMarkdown
    ensures !GetPreviewState(r).isPreviewLocked
  {
    Store(DefaultState)
  }

  /** Both resets are idempotent. */
  lemma ResetsIdempotent(st: Store)
    ensures ResetPreviewState(ResetPreviewState(st)) == ResetPreviewState(st)
    ensures ResetAllState(ResetAllState(st)) == ResetAllState(st)
    ensures ResetAllState(st) == InitialStore
  {
  }

  // ---------------------------------------------------------------------
  // Sequences of calls. The store is synchronous, so a run of calls is the
  // left fold of the single updates.

  /** One call of the store's mutating interface. */
  datatype Call =
    | SetUri(uri: Option<Uri>)
    | SetKind(kind: LastActiveKind)
    | SetLocked(locked: bool)
    | ResetPreview
    | ResetAll

  function Apply(st: Store, c: Call): Store {
    match c
    case SetUri(u) => SetCurrentPreviewUri(st, u)
    case SetKind(k) => SetLastActiveKind(st, k)
    case SetLocked(b) => SetPreviewLocked(st, b)
    case ResetPreview => ResetPreviewState(st)
    case ResetAll => ResetAllState(st)
  }

  /** What a call writes to each field, `None` when it leaves the field alone.
      These are read off the store's interface, independently of `Apply`. */
  function UriWrite(c: Call): Option<Option<Uri>> {
    match c
    case SetUri(u) => Some(u)
    case ResetPreview => Some(None)
    case ResetAll => Some(None)
    case _ => None
  }

  function KindWrite(c: Call): Option<LastActiveKind> {
    match c
    case SetKind(k) => Some(k)
    case ResetAll => Some(NonMarkdown)
    case _ => None
  }

  function LockWrite(c: Call): Option<bool> {
    match c
    case SetLocked(b) => Some(b)
    case ResetPreview => Some(false)
    case ResetAll => Some(false)
    case _ => None
  }

  /** The value written last to a field by `calls`, or `init` if no call
      writes it: the reference meaning of "each field keeps its last write". */
  function LastWrite<T>(calls: seq<Call>, write: Call -> Option<T>, init: T): T
    decreases |calls|
  {
    if calls == [] then init
    else ValueOr(write(calls[|calls| - 1]), LastWrite(calls[..|calls| - 1], write, init))
  }

  /** The store after performing `calls` in order. A field that no call
      writes keeps its value. */
  function Run(st: Store, calls: seq<Call>): (r: Store)
    decreases |calls|
    ensures (forall i :: 0 <= i < |calls| ==> UriWrite(calls[i]).None?) ==>
              r.state.currentPreviewUri == st.state.currentPreviewUri
    ensures (forall i :: 0 <= i < |calls| ==> KindWrite(calls[i]).None?) ==>
              r.state.lastActiveKind == st.state.lastActiveKind
    ensures (forall i :: 0 <= i < |calls| ==> LockWrite(calls[i]).None?) ==>
              r.state.isPreviewLocked == st.state.isPreviewLocked
  {
    if calls == [] then st
    else
      assert forall i :: 0 <= i < |calls| - 1 ==> calls[1..][i] == calls[i + 1];
      Run(Apply(st, calls[0]), calls[1..])
  }

  /** A single call writes exactly what its `...Write` entries say. */
  lemma ApplyWrites(st: Store, c: Call)
    ensures Apply(st, c).state ==
      PreviewState(ValueOr(UriWrite(c), st.state.currentPreviewUri),
                   ValueOr(KindWrite(c), st.state.lastActiveKind),
                   ValueOr(LockWrite(c), st.state.isPreviewLocked))
  {
  }

  lemma {:induction false} RunAppend(st: Store, calls: seq<Call>, c: Call)
    ensures Run(st, calls + [c]) == Apply(Run(st, calls), c)
    decreases |calls|
  {
    if calls == [] {
      assert [c][1..] == [];
    } else {
      assert (calls + [c])[1..] == calls[1..] + [c];
      RunAppend(Apply(st, calls[0]), calls[1..], c);
    }
  }

  lemma {:induction false} RunConcat(st: Store, a: seq<Call>, b: seq<Call>)
    ensures Run(st, a + b) == Run(Run(st, a), b)
    decreases |a|
  {
    if a == [] {
      assert a + b == b;
    } else {
      assert (a + b)[1..] == a[1..] + b;
      RunConcat(Apply(st, a[0]), a[1..], b);
    }
  }

  /** After any sequence of calls, every field holds the value written to it
      last, or its initial value if no call wrote it. */
  lemma {:induction false} RunIsLastWrite(st: Store, calls: seq<Call>)
    ensures Run(st, calls).state ==
      PreviewState(LastWrite(calls, UriWrite, st.state.currentPreviewUri),
                   LastWrite(calls, KindWrite, st.state.lastActiveKind),
                   LastWrite(calls, LockWrite, st.state.isPreviewLocked))
    decreases |calls|
  {
    if calls != [] {
      var init, c := calls[..|calls| - 1], calls[|calls| - 1];
      assert calls == init + [c];
      RunAppend(st, init, c);
      RunIsLastWrite(st, init);
      ApplyWrites(Run(st, init), c);
    }
  }

  /** A full reset erases history: what follows it behaves exactly as on a
      freshly initialised store. */
  lemma RunForgetsBeforeResetAll(st: Store, before: seq<Call>, after: seq<Call>)
    ensures Run(st, before + [ResetAll] + after) == Run(InitialStore, after)
  {
    RunConcat(st, before + [ResetAll], after);
    RunAppend(st, before, ResetAll);
  }

  /** A preview-only reset clears the preview whatever came before it and
      keeps the kind that was last recorded. */
  lemma RunEndingInResetPreview(st: Store, calls: seq<Call>)
    ensures Run(st, calls + [ResetPreview]).state ==
      PreviewState(None, LastWrite(calls, KindWrite, st.state.lastActiveKind), false)
  {
    RunAppend(st, calls, ResetPreview);
    RunIsLastWrite(st, calls);
  }
}
