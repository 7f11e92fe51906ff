# FamilyBoard in Dafny

FamilyBoard is a television app for a family message board. A family member
picks their user card (Dad, Mom or Kid). A quick-note composer then opens over
the screen. There they either pick one of six canned notes or type a note on an
on-screen keyboard and press ADD. The note is pinned to a shared board of
sticky notes, and any note on the board can be deleted.

The only logic in the app is the state of its root view and the closures that
change that state. This project models that state as one class,
`FamilyBoard.ContentView`, with one method per closure:

- the four view-state fields: the selected user, whether the composer shows,
  whether the board shows, and the notes;
- the composer's draft, which the on-screen keys, the text field and ADD edit.

The modules:

- `Optional` (optional.dfy): Swift's `Optional` and its `??` operator.
- `Whitespace` (whitespace.dfy): whitespace trimming. `TrimStart` and
  `TrimEnd` are each proved to drop exactly a whitespace run. `Trim` is proved
  to be the unique trimmed middle between a whitespace prefix and a whitespace
  suffix, to be idempotent, and to leave trimmed text unchanged.
- `QuickNote` (quick_note.dfy): the canned catalogue, the keyboard's letter
  rows, and `SubmitDraft`, the trim-and-reject check made by ADD.
- `FamilyBoard` (content_view.dfy): `BoardNote`, removal at an index, and the
  `ContentView` class.
- `Scenarios` (scenarios.dfy): short sessions driven through the class's
  methods, each with the exact final state it must reach.

## Screens and the invariant

The board shows when `isShowingBoard` is set. Otherwise the user select screen
shows. The composer is an overlay. While it shows, the screen under it is
disabled (ContentView.swift:69-70). So in the model:

- the user-card method requires that neither the board nor the composer shows;
- the board methods require that the board shows and the composer does not;
- the composer methods require that the composer shows.

`ContentView.Valid()` is the invariant that holds in every reachable state:

- whenever the composer or the board shows, a user is selected;
- the selected user is Dad, Mom or Kid;
- every note's author is Dad, Mom or Kid, and its text is non-empty and
  trimmed;
- the draft is empty while the composer is hidden.

The constructor establishes `Valid()`, and every event method requires it and
keeps it. So it holds in every state the events can reach from the initial
state.

Each method's `modifies` clause names the fields it changes. This field frame
is what proves that "nothing else changes".

The last clause of `Valid()` models SwiftUI's state lifetime. The composer's
`@State customNote` belongs to the overlay view, and SwiftUI discards it when
the overlay is removed. In the model this shows up as the draft being cleared
whenever the composer closes.

## Model

| member | source | states |
|---|---|---|
| `FamilyBoard.ContentView.constructor` | FamilyBoard/ContentView.swift:16-19 | Initial state: no user selected, composer and board hidden, no notes, empty draft; the reachable-state invariant holds |
| `FamilyBoard.ContentView.TapUserCard` | FamilyBoard/ContentView.swift:50-62 | Tapping the Dad, Mom or Kid card, allowed only on the enabled user select screen, records that user and opens the composer; the notes, the board flag and the draft are untouched; the invariant is kept |
| `FamilyBoard.ContentView.TapPlus` | FamilyBoard/ContentView.swift:28-31 | The board's plus button, allowed only while the composer is hidden, sets only the composer flag |
| `FamilyBoard.ContentView.TapBack` | FamilyBoard/ContentView.swift:36-39 | The board's back button also sets only the composer flag |
| `FamilyBoard.ContentView.DeleteNote` | FamilyBoard/ContentView.swift:32-35 | An index in range removes exactly that note and keeps the others in order; a negative index or one at or past the end leaves the notes unchanged; no other field changes |
| `FamilyBoard.ContentView.Cancel` | FamilyBoard/ContentView.swift:74-77 | Cancel hides both the composer and the board, so the user select screen shows; the notes and the selected user stay; the composer's draft is discarded |
| `FamilyBoard.ContentView.PostNote` | FamilyBoard/ContentView.swift:78-83 | Appends exactly one note at the end, with the handed-back text and author `selectedUser ?? ""`, which is Dad, Mom or Kid; earlier notes are unchanged; the composer ends hidden and the board shown |
| `FamilyBoard.ContentView.SelectQuickNote` | FamilyBoard/ContentView.swift:330-345 | A canned button posts its catalogue title verbatim, whatever the draft holds |
| `FamilyBoard.ContentView.AddCustomNote` | FamilyBoard/ContentView.swift:361-366 | A draft that is all whitespace posts nothing and leaves the draft, the composer and the board as they were; otherwise the trimmed draft is posted as with a canned note and the draft becomes empty |
| `FamilyBoard.ContentView.EditDraft` | FamilyBoard/ContentView.swift:353 | The bound text field replaces the draft with what was entered |
| `FamilyBoard.ContentView.PressLetter` | FamilyBoard/ContentView.swift:146-149 | A letter key appends exactly its one letter to the draft |
| `FamilyBoard.ContentView.PressSpace` | FamilyBoard/ContentView.swift:155-157 | SPACE appends exactly one space |
| `FamilyBoard.ContentView.PressDelete` | FamilyBoard/ContentView.swift:159-162 | DELETE on a non-empty draft removes exactly its last `char`, one Unicode scalar (see "## Left out"); on an empty draft it does nothing |
| `FamilyBoard.RemoveAt` | FamilyBoard/ContentView.swift:34 | `remove(at:)`: the result is one shorter, the notes before the index are in place, and each later note moves down by one |
| `FamilyBoard.RemoveAtMultiset` | FamilyBoard/ContentView.swift:34 | Removal at an index drops exactly one occurrence of the removed note and keeps every other note |
| `Whitespace.TrimStart` | FamilyBoard/ContentView.swift:362 | The result is a suffix of the input; the dropped prefix is all whitespace; the result does not start with whitespace |
| `Whitespace.TrimEnd` | FamilyBoard/ContentView.swift:362 | The result is a prefix of the input; the dropped suffix is all whitespace; the result does not end with whitespace |
| `Whitespace.Trim` | FamilyBoard/ContentView.swift:362 | The trimmed text has no whitespace at either end, and it is empty exactly when the input is all whitespace |
| `Whitespace.TrimUnique` | FamilyBoard/ContentView.swift:362 | If a string splits into a whitespace prefix, a trimmed middle and a whitespace suffix, then that middle is its trim |
| `Whitespace.TrimSplit` | FamilyBoard/ContentView.swift:362 | Every string's trim is such a middle part, between a whitespace prefix and a whitespace suffix |
| `Whitespace.TrimFixpoint` | FamilyBoard/ContentView.swift:362 | A string is its own trim exactly when it has no whitespace at either end |
| `Whitespace.TrimIdempotent` | FamilyBoard/ContentView.swift:362 | Trimming twice gives the same as trimming once |
| `QuickNote.SubmitDraft` | FamilyBoard/ContentView.swift:362-365 | ADD's check: nothing when the draft is all whitespace; otherwise the draft's trim, which is non-empty, is no longer than the draft and has no whitespace at either end |
| `QuickNote.SubmitTrimmed` | FamilyBoard/ContentView.swift:362-365 | A non-empty, already trimmed draft is submitted unchanged |
| `QuickNote.SubmitIgnoresPadding` | FamilyBoard/ContentView.swift:362-365 | Adding whitespace at either end of the draft does not change what ADD submits |
| `QuickNote.CatalogueIsPostable` | FamilyBoard/ContentView.swift:290-291 | The catalogue has six titles; each is non-empty and already trimmed, so it meets what a posted note must satisfy |
| `QuickNote.CatalogueIsDistinct` | FamilyBoard/ContentView.swift:332-342 | The six titles are pairwise distinct, as the button lists identify each button by its title |
| `QuickNote.LetterKeysAreAlphabet` | FamilyBoard/ContentView.swift:135-140 | The letter keys, read row by row, are A to Z, each once, in order |
| `Scenarios.KidPostsCannedNote` | FamilyBoard/ContentView.swift:59-62 | Kid, then the canned CALL ME, gives exactly one note, CALL ME by Kid; the board shows and the composer is closed |
| `Scenarios.TypeAndDelete` | FamilyBoard/ContentView.swift:146-162 | A, B, C, DELETE, SPACE on an empty draft leave the draft "AB " |
| `Scenarios.AddBlankDraft` | FamilyBoard/ContentView.swift:361-366 | ADD on a draft of three spaces posts nothing; the draft stays "   " and the composer stays open |
| `Scenarios.AddPaddedDraft` | FamilyBoard/ContentView.swift:361-366 | ADD on "  Buy milk  " posts exactly one note, "Buy milk" by Mom, and empties the draft |
| `Scenarios.CancelOverBoard` | FamilyBoard/ContentView.swift:74-77 | Cancel from a composer opened over the board ends on the user select screen, not on the board; the note stays |
| `Scenarios.DeleteInAndOutOfRange` | FamilyBoard/ContentView.swift:32-35 | With two notes, deleting at -1 or at 2 changes nothing; deleting at 0 leaves only the second note |

## Cancel over the board

Cancel sets `isShowingBoard = false` (ContentView.swift:76). So it always ends
on the user select screen, even when the composer was opened over the board.
`Scenarios.CancelOverBoard` shows this.

## Left out

- Layout, styling, shadows, scale effects, transitions and the sticky-note
  grid: they are rendering only.
- The colour mappings `quickNoteColor(for:)` and `color(for:)`: they yield
  floating-point colours and change no state.
- Focus tracking (`isFocused`, `.focusable`, `@FocusState`). This includes the
  rule in `FocusableNoteContainer` (ContentView.swift:638-641) that a tap
  deletes only a focused note. Focus is platform input handling, so
  `DeleteNote` models the delete callback itself.
- The deferred first focus of the text field through `DispatchQueue.main.async`:
  it is asynchronous UI scheduling with no effect on the modelled state.
- The `print` logging.
- Whitespace.IsSpace: the whitespace set is space, tab, line feed and
  carriage return. It stands in for Foundation's Unicode
  `.whitespacesAndNewlines`, which is larger (other Unicode spaces and line
  separators). So `Trim` does not strip those other characters.
- FamilyBoard.ContentView.PressDelete: a Dafny `char` is one Unicode scalar,
  while a Swift `Character` is a grapheme cluster. `removeLast()`
  (ContentView.swift:161) removes a whole cluster, but the model removes one
  scalar. The two agree on every draft typed with the on-screen keys. They
  differ for multi-scalar characters entered through the text field: on
  "OK 👍🏽" Swift leaves "OK " and the model leaves "OK 👍"; on "A\r\n" Swift
  leaves "A" and the model leaves "A\r". Grapheme segmentation is not
  modelled.
- FamilyBoard.ContentView.PostNote: it requires non-empty, trimmed text. The
  `onSelectNote` closure itself does not check this. Its only callers are ADD,
  which passes a non-empty trim, and the canned buttons, whose titles are
  proved non-empty and trimmed.
- FamilyBoard.ContentView.TapUserCard: the three card closures are one method
  that takes the card's name, which must be one of the three names.
- FamilyBoard.ContentView.EditDraft: the host's text field can edit the draft
  in any way. It is modelled as replacing the whole draft.
- The board's `userName` parameter (ContentView.swift:27) is passed to the
  board view but never read there, so it is not modelled.
