/** The board's screen state and the event handlers that change it: the user
    select screen, the quick-note composer overlay and the board of notes. */
module FamilyBoard {
  import opened Optional
  import opened Whitespace
  import opened QuickNote

  /** A posted sticky note and the name of the user who posted it. */
  datatype BoardNote = BoardNote(text: string, userName: string)

  /** The names on the three user cards. */
  const Users: seq<string> := ["Dad", "Mom", "Kid"]

  predicate IsUser(name: string) {
    name in Users
  }

  /** `notes.remove(at: index)`: the notes before `index` stay where they
      are, the ones after it move down by one. */
  function RemoveAt<T>(notes: seq<T>, index: nat): (r: seq<T>)
    requires index < |notes|
    ensures |r| == |notes| - 1
    ensures forall k :: 0 <= k < index ==> r[k] == notes[k]
    ensures forall k :: index <= k < |r| ==> r[k] == notes[k + 1]
  {
    notes[..index] + notes[index + 1..]
  }

  /** Removing at `index` drops exactly one occurrence of that element. */
  lemma RemoveAtMultiset<T>(notes: seq<T>, index: nat)
    requires index < |notes|
    ensures multiset(RemoveAt(notes, index)) + multiset{notes[index]} == multiset(notes)
  {
    assert notes == notes[..index] + [notes[index]] + notes[index + 1..];
  }

  /** Whether a note may stand on the board: posted by one of the three
      users, with non-empty text that has no whitespace at either end. */
  predicate IsWellFormed(note: BoardNote) {
    IsUser(note.userName) && note.text != [] && IsTrimmed(note.text)
  }

  /** The root view. Its first four fields are the view's state; `customNote`
      is the composer's draft, which exists only while the composer shows. */
  class ContentView {
    var selectedUser: Option<string>
    var isShowingQuickNote: bool
    var isShowingBoard: bool
    var boardNotes: seq<BoardNote>
    var customNote: string

    /** What holds in every state the events can reach from the initial one. */
    ghost predicate Valid()
      reads this
    {
      (isShowingQuickNote || isShowingBoard ==> selectedUser.Some?)
      && (selectedUser.Some? ==> IsUser(selectedUser.value))
      && (forall k :: 0 <= k < |boardNotes| ==> IsWellFormed(boardNotes[k]))
      && (!isShowingQuickNote ==> customNote == [])
    }

    /** The user select screen, nobody selected, no notes. */
    constructor ()
      ensures Valid()
      ensures selectedUser == None && !isShowingQuickNote && !isShowingBoard
      ensures boardNotes == [] && customNote == []
    {
      selectedUser := None;
      isShowingQuickNote := false;
      isShowingBoard := false;
      boardNotes := [];
      customNote := [];
    }

    // ---- The user select screen (shown when the board is not), enabled
    // ---- only while the composer is hidden.

    /** A tap on the card of `name`: records the user and opens the composer. */
    method TapUserCard(name: string)
      requires Valid() && IsUser(name)
      requires !isShowingBoard && !isShowingQuickNote
      modifies this`selectedUser, this`isShowingQuickNote
      ensures Valid()
      ensures selectedUser == Some(name) && isShowingQuickNote
    {
      selectedUser := Some(name);
      isShowingQuickNote := true;
    }

    // ---- The board, enabled only while the composer is hidden.

    /** The plus button: opens the composer over the board. */
    method TapPlus()
      requires Valid() && isShowingBoard && !isShowingQuickNote
      modifies this`isShowingQuickNote
      ensures Valid() && isShowingQuickNote
    {
      isShowingQuickNote := true;
    }

    /** The back button: also opens the composer over the board. */
    method TapBack()
      requires Valid() && isShowingBoard && !isShowingQuickNote
      modifies this`isShowingQuickNote
      ensures Valid() && isShowingQuickNote
    {
      isShowingQuickNote := true;
    }

    /** Deletes the note at `index`; an index out of range changes nothing. */
    method DeleteNote(index: int)
      requires Valid() && isShowingBoard && !isShowingQuickNote
      modifies this`boardNotes
      ensures Valid()
      ensures 0 <= index < |old(boardNotes)| ==> boardNotes == RemoveAt(old(boardNotes), index)
      ensures !(0 <= index < |old(boardNotes)|) ==> boardNotes == old(boardNotes)
    {
      if !(0 <= index < |boardNotes|) {
        return;
      }
      boardNotes := RemoveAt(boardNotes, index);
    }

    // ---- The composer overlay.

    /** CANCEL, or the composer's back button: hides the composer and the
        board, which leaves the user select screen showing. The composer's
        draft goes with it. */
    method Cancel()
      requires Valid() && isShowingQuickNote
      modifies this`isShowingQuickNote, this`isShowingBoard, this`customNote
      ensures Valid()
      ensures !isShowingQuickNote && !isShowingBoard && customNote == []
    {
      isShowingQuickNote := false;
      isShowingBoard := false;
      customNote := [];
    }

    /** The composer hands back a note: it closes, the note is appended with
        the selected user as its author, and the board shows. The composer
        only ever hands back non-empty trimmed text. */
    method PostNote(text: string)
      requires Valid() && isShowingQuickNote
      requires text != [] && IsTrimmed(text)
      modifies this`isShowingQuickNote, this`isShowingBoard, this`boardNotes, this`customNote
      ensures Valid()
      ensures boardNotes == old(boardNotes) + [BoardNote(text, selectedUser.GetOr([]))]
      ensures IsUser(boardNotes[|boardNotes| - 1].userName)
      ensures !isShowingQuickNote && isShowingBoard && customNote == []
    {
      isShowingQuickNote := false;
      var user := selectedUser.GetOr([]);
      boardNotes := boardNotes + [BoardNote(text, user)];
      isShowingBoard := true;
      customNote := [];
    }

    /** A canned note button: posts that title as it is, whatever the draft. */
    method SelectQuickNote(index: nat)
      requires Valid() && isShowingQuickNote && index < |Catalogue|
      modifies this`isShowingQuickNote, this`isShowingBoard, this`boardNotes, this`customNote
      ensures Valid()
      ensures boardNotes == old(boardNotes) + [BoardNote(Catalogue[index], selectedUser.GetOr([]))]
      ensures !isShowingQuickNote && isShowingBoard
    {
      var title := Catalogue[index];
      CatalogueIsPostable();
      assert title != [] && IsTrimmed(title);
      PostNote(title);
    }

    /** ADD: a draft that trims to nothing is ignored and kept; otherwise the
        trimmed draft is posted and the draft cleared. */
    method AddCustomNote()
      requires Valid() && isShowingQuickNote
      modifies this`isShowingQuickNote, this`isShowingBoard, this`boardNotes, this`customNote
      ensures Valid()
      ensures AllSpace(old(customNote)) ==>
        boardNotes == old(boardNotes) && isShowingQuickNote && isShowingBoard == old(isShowingBoard)
        && customNote == old(customNote)
      ensures !AllSpace(old(customNote)) ==>
        boardNotes == old(boardNotes) + [BoardNote(Trim(old(customNote)), selectedUser.GetOr([]))]
        && !isShowingQuickNote && isShowingBoard && customNote == []
    {
      var submitted := SubmitDraft(customNote);
      if submitted.None? {
        return;
      }
      PostNote(submitted.value);
      customNote := [];
    }

    /** The text field: the host's own text entry replaces the draft. */
    method EditDraft(text: string)
      requires Valid() && isShowingQuickNote
      modifies this`customNote
      ensures Valid() && customNote == text
    {
      customNote := text;
    }

    /** A letter key appends its letter. */
    method PressLetter(key: char)
      requires Valid() && isShowingQuickNote && key in LetterKeys
      modifies this`customNote
      ensures Valid() && customNote == old(customNote) + [key]
    {
      customNote := customNote + [key];
    }

    /** SPACE appends a space. */
    method PressSpace()
      requires Valid() && isShowingQuickNote
      modifies this`customNote
      ensures Valid() && customNote == old(customNote) + " "
    {
      customNote := customNote + " ";
    }

    /** DELETE removes the last character; on an empty draft it does nothing. */
    method PressDelete()
      requires Valid() && isShowingQuickNote
      modifies this`customNote
      ensures Valid()
      ensures old(customNote) == [] ==> customNote == []
      ensures old(customNote) != [] ==>
        customNote == old(customNote)[..|old(customNote)| - 1]
        && customNote + [old(customNote)[|old(customNote)| - 1]] == old(customNote)
    {
      if customNote == [] {
        return;
      }
      customNote := customNote[..|customNote| - 1];
    }
  }
}
