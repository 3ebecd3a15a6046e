/** The workbench's line editor: UTF-8 bytes and a byte cursor, refined from the text before and after
    the cursor. */
module Editor {
  import opened Basics
  import opened Utf8
  import Json

  /** The text before and after the cursor. */
  datatype Zipper = Zipper(before: string, after: string)

  function Text(z: Zipper): string {
    z.before + z.after
  }

  predicate Accepted(c: char) {
    c != '\r' && (!Json.IsControl(c) || c == '\n' || c == '\t')
  }

  function Insert(z: Zipper, c: char, maximum: nat): Zipper {
    if Accepted(c) && Len(Text(z)) + |CharBytes(c)| <= maximum then z.(before := z.before + [c]) else z
  }

  function InsertAll(z: Zipper, text: string, maximum: nat): Zipper
    decreases |text|
  {
    if text == "" then z else InsertAll(Insert(z, text[0], maximum), text[1..], maximum)
  }

  /** `replace("\r\n", "\n")`. */
  function JoinPairs(text: string): string {
    if text == "" then ""
    else if |text| > 1 && text[0] == '\r' && text[1] == '\n' then "\n" + JoinPairs(text[2..])
    else [text[0]] + JoinPairs(text[1..])
  }

  /** `replace('\r', "\n")`. */
  function ReplaceReturns(text: string): string {
    if text == "" then "" else [if text[0] == '\r' then '\n' else text[0]] + ReplaceReturns(text[1..])
  }

  function Normalize(text: string): string {
    ReplaceReturns(JoinPairs(text))
  }

  function Backspaced(z: Zipper): Zipper {
    if z.before == "" then z else z.(before := z.before[..|z.before| - 1])
  }

  function Deleted(z: Zipper): Zipper {
    if z.after == "" then z else z.(after := z.after[1..])
  }

  function MovedLeft(z: Zipper): Zipper {
    if z.before == "" then z
    else Zipper(z.before[..|z.before| - 1], [z.before[|z.before| - 1]] + z.after)
  }

  function MovedRight(z: Zipper): Zipper {
    if z.after == "" then z else Zipper(z.before + [z.after[0]], z.after[1..])
  }

  class Editor {
    var content: Bytes
    var cursor: nat
    ghost var model: Zipper

    /** The content is the encoded text and the cursor stands on the boundary between its parts. */
    ghost predicate Valid()
      reads this
    {
      content == Encode(model.before) + Encode(model.after) && cursor == Len(model.before)
    }

    constructor WithContent(bytes: Bytes, ghost text: string)
      requires bytes == Encode(text)
      ensures Valid() && model == Zipper(text, "")
    {
      content := bytes;
      cursor := |bytes|;
      model := Zipper(text, "");
    }

    method InsertCharacter(c: char, maximumBytes: nat)
      requires Valid()
      modifies this
      ensures Valid() && model == Insert(old(model), c, maximumBytes)
    {
      hide Encode, CharBytes;
      EncodeAppend(model.before, model.after);
      var encoded := CharBytes(c);
      if !Accepted(c) || |content| + |encoded| > maximumBytes {
        return;
      }
      EncodeAppend(model.before, [c]);
      EncodeOne(c);
      content := content[..cursor] + encoded + content[cursor..];
      cursor := cursor + |encoded|;
      model := Insert(model, c, maximumBytes);
    }

    method InsertText(text: string, maximumBytes: nat)
      requires Valid()
      modifies this
      ensures Valid() && model == InsertAll(old(model), Normalize(text), maximumBytes)
    {
      hide Encode, Insert;
      var normalized := Normalize(text);
      ghost var goal := InsertAll(model, normalized, maximumBytes);
      for i := 0 to |normalized|
        invariant Valid()
        invariant InsertAll(model, normalized[i..], maximumBytes) == goal
      {
        assert normalized[i..][0] == normalized[i] && normalized[i..][1..] == normalized[i + 1..];
        InsertCharacter(normalized[i], maximumBytes);
      }
    }

    /** Where the character before the cursor starts. */
    method PreviousStart() returns (start: nat)
      requires Valid() && cursor > 0
      ensures model.before != "" && start == Len(model.before[..|model.before| - 1])
    {
      hide Encode, CharBytes;
      ghost var n := |model.before| - 1;
      CursorPositive(model.before);
      LastCharacter(model.before);
      ghost var last := CharBytes(model.before[n]);
      start := cursor - 1;
      while IsContinuation(content[start])
        invariant Len(model.before[..n]) <= start < cursor
        invariant content[start] == last[start - Len(model.before[..n])]
        decreases start
      {
        start := start - 1;
      }
      assert start == Len(model.before[..n]);
    }

    method Backspace()
      requires Valid()
      modifies this
      ensures Valid() && model == Backspaced(old(model))
    {
      hide Encode;
      CursorPositive(model.before);
      if cursor > 0 {
        var start := PreviousStart();
        LastCharacter(model.before);
        content := content[..start] + content[cursor..];
        cursor := start;
        model := Backspaced(model);
      }
    }

    /** Where the character after the cursor ends. */
    method NextEnd() returns (end: nat)
      requires Valid() && cursor < |content|
      ensures model.after != "" && end == cursor + |CharBytes(model.after[0])|
      ensures end <= |content|
    {
      hide Encode, CharBytes;
      FirstCharacter(model.after);
      ghost var first := CharBytes(model.after[0]);
      assert forall i :: 1 <= i < |first| ==> content[cursor + i] == first[i];
      end := cursor + 1;
      while end < |content| && IsContinuation(content[end])
        invariant cursor < end <= cursor + |first|
        invariant cursor + |first| <= |content|
      {
        if end == cursor + |first| {
          RestStarts(model.after);
        }
        end := end + 1;
      }
    }

    method Delete()
      requires Valid()
      modifies this
      ensures Valid() && model == Deleted(old(model))
    {
      hide Encode, CharBytes;
      CursorPositive(model.after);
      if cursor < |content| {
        var end := NextEnd();
        FirstCharacter(model.after);
        content := content[..cursor] + content[end..];
        model := Deleted(model);
      }
    }

    method MoveLeft()
      requires Valid()
      modifies this
      ensures Valid() && model == MovedLeft(old(model)) && content == old(content)
    {
      hide Encode, CharBytes;
      CursorPositive(model.before);
      if cursor > 0 {
        var start := PreviousStart();
        LastCharacter(model.before);
        FirstCharacter(MovedLeft(model).after);
        cursor := start;
        model := MovedLeft(model);
      }
    }

    method MoveRight()
      requires Valid()
      modifies this
      ensures Valid() && model == MovedRight(old(model)) && content == old(content)
    {
      hide Encode, CharBytes;
      CursorPositive(model.after);
      if cursor < |content| {
        var end := NextEnd();
        FirstCharacter(model.after);
        LastCharacter(MovedRight(model).before);
        cursor := end;
        model := MovedRight(model);
      }
    }

    method Clear()
      modifies this
      ensures Valid() && model == Zipper("", "")
    {
      content := [];
      cursor := 0;
      model := Zipper("", "");
    }
  }

  lemma CursorPositive(s: string)
    ensures Len(s) > 0 <==> s != ""
  {
  }

  lemma LastCharacter(s: string)
    requires s != ""
    ensures Encode(s) == Encode(s[..|s| - 1]) + CharBytes(s[|s| - 1])
  {
    assert s[..|s|] == s;
    PrefixStep(s, |s| - 1);
  }

  lemma FirstCharacter(s: string)
    ensures s != "" ==> Encode(s) == CharBytes(s[0]) + Encode(s[1..])
    ensures s == "" ==> Encode(s) == []
  {
  }

  lemma RestStarts(s: string)
    requires s != "" && |CharBytes(s[0])| < Len(s)
    ensures !IsContinuation(Encode(s)[|CharBytes(s[0])|])
  {
  }

  // ----- What the editor holds ------------------------------------------------------------------------

  /** Typing a character and deleting it again changes nothing, and backspacing is moving left and
      deleting. */
  lemma InsertInverts(z: Zipper, c: char, maximum: nat)
    ensures Insert(z, c, maximum) != z ==> Backspaced(Insert(z, c, maximum)) == z
    ensures z.before != "" ==> Deleted(MovedLeft(z)) == Backspaced(z)
  {
  }

  /** Moving away and back changes nothing, and moving never changes the text. */
  lemma MovedLeftAndBack(z: Zipper)
    requires z.before != ""
    ensures MovedRight(MovedLeft(z)) == z && Text(MovedLeft(z)) == Text(z)
  {
  }

  lemma MovedRightAndBack(z: Zipper)
    requires z.after != ""
    ensures MovedLeft(MovedRight(z)) == z && Text(MovedRight(z)) == Text(z)
  {
  }

  datatype Op = Type(c: char) | Paste(text: string) | DoBackspace | DoDelete | GoLeft | GoRight | DoClear

  function Apply(z: Zipper, op: Op, maximum: nat): Zipper {
    match op
    case Type(c) => Insert(z, c, maximum)
    case Paste(text) => InsertAll(z, Normalize(text), maximum)
    case DoBackspace => Backspaced(z)
    case DoDelete => Deleted(z)
    case GoLeft => MovedLeft(z)
    case GoRight => MovedRight(z)
    case DoClear => Zipper("", "")
  }

  function Run(z: Zipper, ops: seq<Op>, maximum: nat): Zipper {
    if ops == [] then z else Apply(Run(z, ops[..|ops| - 1], maximum), ops[|ops| - 1], maximum)
  }

  ghost predicate Clean(z: Zipper, maximum: nat) {
    Len(z.before) + Len(z.after) <= maximum && AllAccepted(z.before) && AllAccepted(z.after)
  }

  ghost predicate AllAccepted(s: string) {
    forall c :: c in s ==> Accepted(c)
  }

  lemma InsertClean(z: Zipper, c: char, maximum: nat)
    requires Clean(z, maximum)
    ensures Clean(Insert(z, c, maximum), maximum)
  {
    hide Encode;
    EncodeAppend(z.before, z.after);
    EncodeAppend(z.before, [c]);
    EncodeOne(c);
  }

  lemma {:induction false} InsertAllClean(z: Zipper, text: string, maximum: nat)
    requires Clean(z, maximum)
    ensures Clean(InsertAll(z, text, maximum), maximum)
    decreases |text|
  {
    hide Clean, Insert;
    if text != "" {
      InsertClean(z, text[0], maximum);
      InsertAllClean(Insert(z, text[0], maximum), text[1..], maximum);
    }
  }

  lemma AcceptedParts(a: string, b: string)
    ensures AllAccepted(a + b) <==> AllAccepted(a) && AllAccepted(b)
  {
  }

  lemma LeftClean(z: Zipper, maximum: nat)
    requires Clean(z, maximum)
    ensures Clean(Backspaced(z), maximum) && Clean(MovedLeft(z), maximum)
  {
    hide Encode, AllAccepted;
    if z.before != "" {
      var front, last := z.before[..|z.before| - 1], [z.before[|z.before| - 1]];
      assert z.before == front + last;
      AcceptedParts(front, last);
      AcceptedParts(last, z.after);
      EncodeAppend(front, last);
      EncodeAppend(last, z.after);
    }
  }

  lemma RightClean(z: Zipper, maximum: nat)
    requires Clean(z, maximum)
    ensures Clean(Deleted(z), maximum) && Clean(MovedRight(z), maximum)
  {
    hide Encode, AllAccepted;
    if z.after != "" {
      var first, rest := [z.after[0]], z.after[1..];
      assert z.after == first + rest;
      AcceptedParts(first, rest);
      AcceptedParts(z.before, first);
      EncodeAppend(first, rest);
      EncodeAppend(z.before, first);
    }
  }

  /** No sequence of edits exceeds the byte limit or leaves a carriage return or another control
      character in the text. */
  lemma {:induction false} RunClean(z: Zipper, ops: seq<Op>, maximum: nat)
    requires Clean(z, maximum)
    ensures Clean(Run(z, ops, maximum), maximum)
  {
    hide Clean, Insert, InsertAll, Normalize, Backspaced, Deleted, MovedLeft, MovedRight;
    if ops != [] {
      var n := |ops| - 1;
      var before := Run(z, ops[..n], maximum);
      RunClean(z, ops[..n], maximum);
      LeftClean(before, maximum);
      RightClean(before, maximum);
      EmptyClean(maximum);
      match ops[n] {
        case Type(c) => InsertClean(before, c, maximum);
        case Paste(text) => InsertAllClean(before, Normalize(text), maximum);
        case _ =>
      }
    }
  }

  lemma EmptyClean(maximum: nat)
    ensures Clean(Zipper("", ""), maximum)
  {
  }

  // ----- Pasting ------------------------------------------------------------------------------------------

  /** Normalising leaves no carriage return, is idempotent, and turns each of the three line endings
      into one line feed. */
  lemma {:induction false} Normalized(text: string)
    ensures '\r' !in Normalize(text)
    ensures '\r' !in text ==> Normalize(text) == text
    ensures |text| > 1 && text[0] == '\r' && text[1] == '\n' ==> Normalize(text) == "\n" + Normalize(text[2..])
    ensures text != "" && text[0] == '\r' && !(|text| > 1 && text[1] == '\n') ==>
              Normalize(text) == "\n" + Normalize(text[1..])
    ensures text != "" && text[0] != '\r' ==> Normalize(text) == [text[0]] + Normalize(text[1..])
    decreases |text|
  {
    if text == "" {
    } else if |text| > 1 && text[0] == '\r' && text[1] == '\n' {
      Normalized(text[2..]);
      assert ("\n" + JoinPairs(text[2..]))[1..] == JoinPairs(text[2..]);
    } else {
      Normalized(text[1..]);
      assert ([text[0]] + JoinPairs(text[1..]))[1..] == JoinPairs(text[1..]);
      assert text == [text[0]] + text[1..];
    }
  }

  lemma {:induction false} InsertAllShape(z: Zipper, text: string, maximum: nat)
    ensures var r := InsertAll(z, text, maximum);
            && z.before <= r.before && r.after == z.after && |r.before| <= |z.before| + |text|
            && (r.before == z.before + text <==>
                AllAccepted(text) && (text == "" || Len(Text(z)) + Len(text) <= maximum))
    decreases |text|
  {
    hide Encode, Accepted;
    if text == "" {
      assert z.before + text == z.before;
    } else {
      var next := Insert(z, text[0], maximum);
      InsertAllShape(next, text[1..], maximum);
      FirstCharacter(text);
      assert text == [text[0]] + text[1..];
      if next != z {
        assert Text(next) == z.before + ([text[0]] + z.after);
        EncodeAppend(z.before, [text[0]] + z.after);
        EncodeAppend(z.before, z.after);
        FirstCharacter([text[0]] + z.after);
        assert ([text[0]] + z.after)[1..] == z.after;
        assert (z.before + [text[0]]) + text[1..] == z.before + text;
        CursorPositive(text[1..]);
      }
    }
  }

  /** A paste arrives whole exactly when its normalised text holds only acceptable characters and
      fits; the text after the cursor is never touched. */
  lemma PasteWholeIff(z: Zipper, text: string, maximum: nat)
    ensures var r := InsertAll(z, Normalize(text), maximum);
            && r.after == z.after
            && (r.before == z.before + Normalize(text) <==>
                && AllAccepted(Normalize(text))
                && (Normalize(text) == "" || Len(Text(z)) + Len(Normalize(text)) <= maximum))
  {
    InsertAllShape(z, Normalize(text), maximum);
  }
}
