/** Short sessions driven through the event handlers, each from a fresh
    root view, with what they must end in. */
module Scenarios {
  import opened Whitespace
  import opened QuickNote
  import opened FamilyBoard

  /** Kid selects the canned note CALL ME: one note by Kid, board showing. */
  method KidPostsCannedNote() returns (notes: seq<BoardNote>, onBoard: bool, composing: bool)
    ensures notes == [BoardNote("CALL ME", "Kid")] && onBoard && !composing
  {
    var view := new ContentView();
    view.TapUserCard("Kid");
    view.SelectQuickNote(3);
    notes, onBoard, composing := view.boardNotes, view.isShowingBoard, view.isShowingQuickNote;
  }

  /** A, B, C, DELETE, SPACE on an empty draft leave "AB ". */
  method TypeAndDelete() returns (draft: string)
    ensures draft == "AB "
  {
    var view := new ContentView();
    view.TapUserCard("Dad");
    assert LetterKeys[..3] == "ABC";
    view.PressLetter('A');
    view.PressLetter('B');
    view.PressLetter('C');
    assert view.customNote == "ABC";
    view.PressDelete();
    assert view.customNote == "AB";
    view.PressSpace();
    draft := view.customNote;
  }

  /** ADD on a draft of spaces posts nothing and keeps both the composer and
      the draft. */
  method AddBlankDraft() returns (notes: seq<BoardNote>, draft: string, composing: bool)
    ensures notes == [] && draft == "   " && composing
  {
    var view := new ContentView();
    view.TapUserCard("Mom");
    view.EditDraft("   ");
    assert AllSpace(view.customNote);
    view.AddCustomNote();
    notes, draft, composing := view.boardNotes, view.customNote, view.isShowingQuickNote;
  }

  /** ADD on "  Buy milk  " posts "Buy milk" and empties the draft. */
  method AddPaddedDraft() returns (notes: seq<BoardNote>, draft: string)
    ensures notes == [BoardNote("Buy milk", "Mom")] && draft == []
  {
    var view := new ContentView();
    view.TapUserCard("Mom");
    var margin, text := "  ", "Buy milk";
    assert AllSpace(margin) && text != [] && IsTrimmed(text);
    SubmitIgnoresPadding(margin, text, margin);
    SubmitTrimmed(text);
    var padded := margin + text + margin;
    assert Trim(padded) == text && !AllSpace(padded);
    view.EditDraft(padded);
    view.AddCustomNote();
    notes, draft := view.boardNotes, view.customNote;
  }

  /** Cancel from the composer opened over the board goes back to the user
      select screen, not to the board; the notes stay. */
  method CancelOverBoard() returns (notes: seq<BoardNote>, onBoard: bool, composing: bool)
    ensures notes == [BoardNote("BUY MILK", "Dad")] && !onBoard && !composing
  {
    var view := new ContentView();
    view.TapUserCard("Dad");
    view.SelectQuickNote(0);
    view.TapPlus();
    view.Cancel();
    notes, onBoard, composing := view.boardNotes, view.isShowingBoard, view.isShowingQuickNote;
  }

  /** Deleting at -1 or past the end changes nothing; deleting at 0 removes
      the first note and moves the second one down. */
  method DeleteInAndOutOfRange() returns (outOfRange: seq<BoardNote>, inRange: seq<BoardNote>)
    ensures outOfRange == [BoardNote("GOOD LUCK!", "Mom"), BoardNote("I'M HOME", "Mom")]
    ensures inRange == [BoardNote("I'M HOME", "Mom")]
  {
    var view := new ContentView();
    view.TapUserCard("Mom");
    view.SelectQuickNote(1);
    view.TapPlus();
    view.SelectQuickNote(2);
    view.DeleteNote(-1);
    view.DeleteNote(2);
    outOfRange := view.boardNotes;
    view.DeleteNote(0);
    inRange := view.boardNotes;
  }
}
